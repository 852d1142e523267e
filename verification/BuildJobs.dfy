// The release-build job table (cmd/gate-runner/build.go): poll-style jobs keyed
// by revision and host set, a cancel switch per running job, one build slot.
// Handlers run under the table's mutex; each build is a goroutine whose moves
// interleave freely with them.
module BuildJobs {
  import opened Order
  import opened Wrappers
  import Text

  /** buildKey: the revision, and what is hashed of the hosts. */
  datatype Key = Key(rev: string, hashed: string)

  function BuildKey(rev: string, hosts: seq<string>): Key {
    Key(rev, Text.Join(Sort(hosts), '\0'))
  }

  lemma SameFirst(a: seq<string>, b: seq<string>)
    requires Sorted(a) && Sorted(b) && multiset(a) == multiset(b) && a != []
    ensures b != [] && a[0] == b[0]
  {
    assert a[0] in multiset(b);
    assert b[0] in multiset(a);
    LessTotal(a[0], b[0]);
  }

  lemma RestOf(a: seq<string>)
    requires a != []
    ensures multiset(a[1..]) == multiset(a) - multiset{a[0]}
    ensures Sorted(a) ==> Sorted(a[1..])
  {
    assert a == [a[0]] + a[1..];
  }

  lemma {:induction false} SortedEqual(a: seq<string>, b: seq<string>)
    requires Sorted(a) && Sorted(b) && multiset(a) == multiset(b)
    ensures a == b
  {
    hide Sorted;
    if a == [] {
      assert |b| == |multiset(b)| == 0;
    } else {
      SameFirst(a, b);
      RestOf(a);
      RestOf(b);
      SortedEqual(a[1..], b[1..]);
      assert a == [a[0]] + a[1..] && b == [b[0]] + b[1..];
    }
  }

  /** Two requests share a job exactly when they name the same revision and, each host
      cut at its NULs, the same names in the same order. */
  lemma KeyIsThePieces(rev: string, hosts: seq<string>, rev': string, hosts': seq<string>)
    requires hosts != [] && hosts' != []
    ensures BuildKey(rev, hosts) == BuildKey(rev', hosts') <==>
            rev == rev' && Text.Pieces(Sort(hosts), '\0') == Text.Pieces(Sort(hosts'), '\0')
  {
    Text.SameJoin(Sort(hosts), Sort(hosts'), '\0');
  }

  /** Hosts without a NUL, as every host name is: the same hosts in any order. */
  lemma KeyIdentifiesTheRequest(rev: string, hosts: seq<string>, rev': string, hosts': seq<string>)
    requires hosts != [] && hosts' != []
    requires forall h :: h in hosts || h in hosts' ==> '\0' !in h
    ensures BuildKey(rev, hosts) == BuildKey(rev', hosts') <==> rev == rev' && multiset(hosts) == multiset(hosts')
  {
    KeyIsThePieces(rev, hosts, rev', hosts');
    SortSorted(hosts);
    SortSorted(hosts');
    forall i | 0 <= i < |Sort(hosts)| ensures '\0' !in Sort(hosts)[i] {
      assert Sort(hosts)[i] in hosts;
    }
    forall i | 0 <= i < |Sort(hosts')| ensures '\0' !in Sort(hosts')[i] {
      assert Sort(hosts')[i] in hosts';
    }
    Text.PiecesOfPlain(Sort(hosts), '\0');
    Text.PiecesOfPlain(Sort(hosts'), '\0');
    if multiset(hosts) == multiset(hosts') {
      SortedEqual(Sort(hosts), Sort(hosts'));
    }
  }

  /** The handler does not check the hosts: a name with a NUL in it shares the job of
      the two names around it. */
  lemma NulSharesAKey(rev: string)
    ensures BuildKey(rev, ["a", "b"]) == BuildKey(rev, ["a\0b"]) && multiset(["a", "b"]) != multiset(["a\0b"])
  {
    assert multiset(["a", "b"])["a"] == 1;
    assert multiset(["a\0b"])["a"] == 0;
    assert Sort(["b"]) == ["b"];
    assert ["a", "b"][1..] == ["b"];
    assert Sort(["a", "b"]) == ["a", "b"];
    assert ["a\0b"][1..] == [];
    assert Sort(["a\0b"]) == ["a\0b"];
  }

  datatype Phase = Building | Done | Failed(detail: string)

  /** A build goroutine: waiting for the slot, building, back from the build, or
      past its verdict and about to give the slot back. */
  datatype Stage = Queued | Running | Returned(error: string) | Recorded

  datatype Task = Task(key: Key, stage: Stage)

  /** Tasks are named by their context; cancelled holds the contexts cancelled. */
  datatype Table = Table(
    builds: map<Key, Phase>, cancels: map<Key, nat>,
    tasks: map<nat, Task>, cancelled: set<nat>, slot: set<nat>, spawned: nat)

  datatype Event =
    | Poll(key: Key) | CancelAll
    | Acquire(t: nat) | Return(t: nat, error: string) | Record(t: nat) | Release(t: nat)

  function Polled(s: Table, key: Key): Table {
    if key in s.builds then s
    else s.(builds := s.builds[key := Building], cancels := s.cancels[key := s.spawned],
            tasks := s.tasks[s.spawned := Task(key, Queued)], spawned := s.spawned + 1)
  }

  function CancelledAll(s: Table): Table {
    s.(cancelled := s.cancelled + s.cancels.Values, cancels := map[])
  }

  function Verdict(s: Table, t: nat): Table
    requires t in s.tasks && s.tasks[t].stage.Returned?
  {
    var key := s.tasks[t].key;
    var error := s.tasks[t].stage.error;
    var s' := s.(cancels := s.cancels - {key}, tasks := s.tasks[t := Task(key, Recorded)]);
    if t in s.cancelled then s'.(builds := s.builds - {key})
    else s'.(builds := s.builds[key := if error != "" then Failed(error) else Done])
  }

  ghost predicate At(s: Table, t: nat, stage: Stage) {
    t in s.tasks && s.tasks[t].stage == stage
  }

  function Moved(s: Table, t: nat, stage: Stage): Table
    requires t in s.tasks
  {
    s.(tasks := s.tasks[t := Task(s.tasks[t].key, stage)])
  }

  ghost predicate Step(s: Table, e: Event, s': Table) {
    match e
    case Poll(key) => s' == Polled(s, key)
    case CancelAll => s' == CancelledAll(s)
    case Acquire(t) => At(s, t, Queued) && s.slot == {} && s' == Moved(s, t, Running).(slot := {t})
    case Return(t, error) => At(s, t, Running) && s' == Moved(s, t, Returned(error))
    case Record(t) => t in s.tasks && s.tasks[t].stage.Returned? && s' == Verdict(s, t)
    case Release(t) => At(s, t, Recorded) && s' == s.(tasks := s.tasks - {t}, slot := s.slot - {t})
  }

  // ---- The server -----------------------------------------------------

  datatype Request = Unparsable | Request(rev: string, hosts: seq<string>)

  datatype Response =
    | Unauthorized | NotConfigured | BadRequest(reason: string) | Job(phase: Phase)

  /** revRe: six to forty lowercase hex digits. */
  predicate ValidRev(rev: string) {
    6 <= |rev| <= 40 && forall i :: 0 <= i < |rev| ==> '0' <= rev[i] <= '9' || 'a' <= rev[i] <= 'f'
  }

  lemma RevisionsAreHex(rev: string)
    ensures ValidRev(rev) <==> 6 <= |rev| <= 40 && forall c :: c in rev ==> c in "0123456789abcdef"
  {
    forall c: char ensures c in "0123456789abcdef" <==> '0' <= c <= '9' || 'a' <= c <= 'f' {
      HexDigit(c);
    }
    assert forall i :: 0 <= i < |rev| ==> rev[i] in rev;
    if ValidRev(rev) {
      forall c | c in rev ensures c in "0123456789abcdef" {
        var i :| 0 <= i < |rev| && rev[i] == c;
      }
    }
  }

  lemma HexDigit(c: char)
    ensures c in "0123456789abcdef" <==> '0' <= c <= '9' || 'a' <= c <= 'f'
  {
    var digits := "0123456789abcdef";
    assert forall i :: 0 <= i < 10 ==> digits[i] == ('0' as int + i) as char;
    assert forall i :: 10 <= i < 16 ==> digits[i] == ('a' as int + i - 10) as char;
    if '0' <= c <= '9' {
      assert digits[c as int - '0' as int] == c;
    }
    if 'a' <= c <= 'f' {
      assert digits[c as int - 'a' as int + 10] == c;
    }
  }

  class Server {
    var builds: map<Key, Phase>
    var buildCancels: map<Key, nat>
    var tasks: map<nat, Task>
    var cancelled: set<nat>
    var slot: set<nat>
    var spawned: nat

    function State(): Table
      reads this
    {
      Table(builds, buildCancels, tasks, cancelled, slot, spawned)
    }

    constructor ()
      ensures State() == Table(map[], map[], map[], {}, {}, 0)
    {
      builds, buildCancels, tasks, cancelled, slot, spawned := map[], map[], map[], {}, {}, 0;
    }

    /** handleBuild: a refused request touches nothing; a good one starts the job
        when its key is new and reports the job's phase. */
    method HandleBuild(authorized: bool, configured: bool, req: Request) returns (r: Response)
      modifies this
      ensures r.Job? <==> authorized && configured && req.Request? && ValidRev(req.rev) && req.hosts != []
      ensures !r.Job? ==> State() == old(State())
      ensures r.Job? ==>
                var key := BuildKey(req.rev, req.hosts);
                Step(old(State()), Poll(key), State()) && key in builds && r.phase == builds[key]
    {
      if !authorized {
        return Unauthorized;
      }
      if !configured {
        return NotConfigured;
      }
      if req.Unparsable? {
        return BadRequest("bad request body");
      }
      if !ValidRev(req.rev) {
        return BadRequest("rev must be a commit hash");
      }
      if req.hosts == [] {
        return BadRequest("hosts required");
      }
      var key := BuildKey(req.rev, req.hosts);
      if key !in builds {
        builds := builds[key := Building];
        buildCancels := buildCancels[key := spawned];
        tasks := tasks[spawned := Task(key, Queued)];
        spawned := spawned + 1;
      }
      return Job(builds[key]);
    }

    /** handleBuildCancel: fires every switch in the table and empties it. */
    method HandleBuildCancel(authorized: bool) returns (count: Option<nat>)
      modifies this
      ensures authorized ==> Step(old(State()), CancelAll, State()) && count == Some(|old(buildCancels)|)
      ensures !authorized ==> State() == old(State()) && count == None
    {
      if !authorized {
        return None;
      }
      count := Some(|buildCancels|);
      var all := buildCancels;
      var left := buildCancels.Keys;
      while left != {}
        invariant left <= all.Keys
        invariant buildCancels == map k | k in left :: all[k]
        invariant cancelled == old(cancelled) + (set k | k in all && k !in left :: all[k])
        invariant builds == old(builds) && tasks == old(tasks) && slot == old(slot) && spawned == old(spawned)
        decreases left
      {
        var key :| key in left;
        assert (set k | k in all && k !in left - {key} :: all[k]) ==
               (set k | k in all && k !in left :: all[k]) + {all[key]};
        cancelled := cancelled + {buildCancels[key]};
        buildCancels := buildCancels - {key};
        left := left - {key};
      }
      assert buildCancels == map[];
      assert (set k | k in all && k !in left :: all[k]) == all.Values;
    }

    /** The locked end of runBuild. */
    method RecordVerdict(t: nat)
      requires t in tasks && tasks[t].stage.Returned?
      modifies this
      ensures Step(old(State()), Record(t), State())
      ensures var key, error := old(tasks)[t].key, old(tasks)[t].stage.error;
              if t in old(cancelled) then builds == old(builds) - {key}
              else if error == "" then builds == old(builds)[key := Done]
              else builds == old(builds)[key := Failed(error)]
    {
      var key := tasks[t].key;
      var error := tasks[t].stage.error;
      buildCancels := buildCancels - {key};
      tasks := tasks[t := Task(key, Recorded)];
      if t in cancelled {
        builds := builds - {key};
        return;
      }
      if error != "" {
        builds := builds[key := Failed(error)];
        return;
      }
      builds := builds[key := Done];
    }
  }

  // ---- The protocol ---------------------------------------------------

  /** The goroutine still owes its key a verdict. */
  predicate Owes(s: Table, t: nat) {
    t in s.tasks && !s.tasks[t].stage.Recorded?
  }

  predicate Owns(s: Table, t: nat, key: Key) {
    Owes(s, t) && s.tasks[t].key == key
  }

  /** A key reads "building" exactly while one goroutine owes it a verdict. */
  ghost predicate OneOwner(s: Table) {
    && (forall key :: key in s.builds && s.builds[key] == Building ==> exists t :: Owns(s, t, key))
    && (forall t, key :: Owns(s, t, key) ==> key in s.builds && s.builds[key] == Building)
    && (forall t, u, key :: Owns(s, t, key) && Owns(s, u, key) ==> t == u)
  }

  /** The switches are those of the goroutines nobody cancelled yet. */
  ghost predicate Switches(s: Table) {
    && (forall key :: key in s.cancels ==> Owns(s, s.cancels[key], key) && s.cancels[key] !in s.cancelled)
    && (forall t, key :: Owns(s, t, key) && t !in s.cancelled ==> key in s.cancels && s.cancels[key] == t)
  }

  /** The slot belongs to the one goroutine past the queue. */
  ghost predicate OneBuild(s: Table) {
    && (forall t :: t in s.slot <==> t in s.tasks && !s.tasks[t].stage.Queued?)
    && (forall t, u :: t in s.slot && u in s.slot ==> t == u)
  }

  ghost predicate Inv(s: Table) {
    && (forall t :: t in s.tasks || t in s.cancelled ==> t < s.spawned)
    && OneOwner(s) && Switches(s) && OneBuild(s)
  }

  lemma PollKeepsInv(s: Table, key: Key)
    requires Inv(s)
    ensures Inv(Polled(s, key))
  {
    var s' := Polled(s, key);
    if key !in s.builds {
      assert Owns(s', s.spawned, key);
      forall t, k ensures Owns(s', t, k) <==> Owns(s, t, k) || (t == s.spawned && k == key) {
      }
      forall k | k in s'.builds && s'.builds[k] == Building ensures exists t :: Owns(s', t, k) {
        if k != key {
          var t :| Owns(s, t, k);
          assert Owns(s', t, k);
        }
      }
    }
  }

  lemma CancelKeepsInv(s: Table)
    requires Inv(s)
    ensures Inv(CancelledAll(s))
    ensures forall t :: Owes(s, t) ==> t in CancelledAll(s).cancelled
  {
    var s' := CancelledAll(s);
    forall t, k ensures Owns(s', t, k) <==> Owns(s, t, k) {
    }
    forall t | Owes(s, t) ensures t in s'.cancelled {
      assert Owns(s, t, s.tasks[t].key);
      if t !in s.cancelled {
        assert s.cancels[s.tasks[t].key] in s.cancels.Values;
      }
    }
    forall k | k in s'.builds && s'.builds[k] == Building ensures exists t :: Owns(s', t, k) {
      var t :| Owns(s, t, k);
      assert Owns(s', t, k);
    }
  }

  /** Only who owes whom a verdict matters to the table's owners and switches. */
  lemma SameDebts(s: Table, s': Table)
    requires OneOwner(s) && Switches(s)
    requires s'.builds == s.builds && s'.cancels == s.cancels && s'.cancelled == s.cancelled
    requires forall t, key :: Owns(s', t, key) <==> Owns(s, t, key)
    ensures OneOwner(s') && Switches(s')
  {
    forall k | k in s'.builds && s'.builds[k] == Building ensures exists u :: Owns(s', u, k) {
      var u :| Owns(s, u, k);
      assert Owns(s', u, k);
    }
  }

  lemma MoveKeepsInv(s: Table, t: nat, stage: Stage, slot: set<nat>)
    requires Inv(s) && Owes(s, t) && !stage.Recorded? && !stage.Queued?
    requires slot == {t} && (s.slot == {} || s.slot == {t})
    ensures Inv(Moved(s, t, stage).(slot := slot))
  {
    var s' := Moved(s, t, stage).(slot := slot);
    forall u, key ensures Owns(s', u, key) <==> Owns(s, u, key) {
    }
    SameDebts(s, s');
    forall u ensures u in s'.slot <==> u in s'.tasks && !s'.tasks[u].stage.Queued? {
      if u != t {
        assert u in s.slot <==> u in s.tasks && !s.tasks[u].stage.Queued?;
      }
    }
  }

  lemma RecordKeepsInv(s: Table, t: nat)
    requires Inv(s) && t in s.tasks && s.tasks[t].stage.Returned?
    ensures Inv(Verdict(s, t))
  {
    var s' := Verdict(s, t);
    var key := s.tasks[t].key;
    forall u ensures Owes(s', u) <==> Owes(s, u) && u != t {
    }
    assert Owns(s, t, key);
    forall u, k | Owns(s', u, k) ensures Owns(s, u, k) && k != key {
      assert Owns(s, u, k) && u != t;
    }
    forall k | k in s'.builds && s'.builds[k] == Building ensures exists u :: Owns(s', u, k) {
      assert k != key;
      var u :| Owns(s, u, k);
      assert Owns(s', u, k);
    }
  }

  lemma ReleaseKeepsInv(s: Table, t: nat)
    requires Inv(s) && At(s, t, Recorded)
    ensures Inv(s.(tasks := s.tasks - {t}, slot := s.slot - {t}))
  {
    var s' := s.(tasks := s.tasks - {t}, slot := s.slot - {t});
    forall u, key ensures Owns(s', u, key) <==> Owns(s, u, key) {
    }
    SameDebts(s, s');
  }

  lemma StepKeepsInv(s: Table, e: Event, s': Table)
    requires Inv(s) && Step(s, e, s')
    ensures Inv(s')
  {
    match e
    case Poll(key) => PollKeepsInv(s, key);
    case CancelAll => CancelKeepsInv(s);
    case Acquire(t) => MoveKeepsInv(s, t, Running, {t});
    case Return(t, error) =>
      assert t in s.slot;
      assert s.slot == {t};
      MoveKeepsInv(s, t, Returned(error), {t});
    case Record(t) => RecordKeepsInv(s, t);
    case Release(t) => ReleaseKeepsInv(s, t);
  }

  ghost predicate Run(ss: seq<Table>, es: seq<Event>) {
    && |ss| == |es| + 1
    && forall i :: 0 <= i < |es| ==> Step(ss[i], es[i], ss[i + 1])
  }

  lemma {:induction false} RunKeepsInv(ss: seq<Table>, es: seq<Event>, n: nat)
    requires Run(ss, es) && Inv(ss[0]) && n < |ss|
    ensures Inv(ss[n])
  {
    if n > 0 {
      RunKeepsInv(ss, es, n - 1);
      assert Step(ss[n - 1], es[n - 1], ss[n]);
      StepKeepsInv(ss[n - 1], es[n - 1], ss[n]);
    }
  }

  /** A key reads "building" exactly while one goroutine owns it, and at most one
      build runs at a time. */
  lemma BuildingMeansOwned(s: Table, key: Key)
    requires Inv(s)
    ensures key in s.builds && s.builds[key] == Building <==> exists t :: Owns(s, t, key)
    ensures forall t, u :: Owns(s, t, key) && Owns(s, u, key) ==> t == u
    ensures forall t, u :: At(s, t, Running) && At(s, u, Running) ==> t == u
  {
    forall t, u | At(s, t, Running) && At(s, u, Running) ensures t == u {
      assert t in s.slot && u in s.slot;
    }
  }

  predicate Settled(s: Table, key: Key) {
    key in s.builds && s.builds[key] != Building
  }

  /** "done" and "failed" are stable over any run. */
  lemma {:induction false} VerdictsAreStable(ss: seq<Table>, es: seq<Event>, key: Key, i: nat, n: nat)
    requires Run(ss, es) && Inv(ss[0]) && i <= n < |ss| && Settled(ss[i], key)
    ensures Settled(ss[n], key) && ss[n].builds[key] == ss[i].builds[key]
    decreases n
  {
    if i < n {
      VerdictsAreStable(ss, es, key, i, n - 1);
      RunKeepsInv(ss, es, n - 1);
      assert Step(ss[n - 1], es[n - 1], ss[n]);
      if es[n - 1].Record? {
        assert Owns(ss[n - 1], es[n - 1].t, ss[n - 1].tasks[es[n - 1].t].key);
      }
    }
  }

  // ---- What a phase tells ---------------------------------------------

  /** Nothing polled yet. */
  predicate Empty(s: Table) {
    s == Table(map[], map[], map[], {}, {}, 0)
  }

  /** A goroutine of the key came back with the error at step j and recorded its
      verdict at step i, nobody having cancelled it by then. */
  ghost predicate Ended(ss: seq<Table>, es: seq<Event>, key: Key, error: string, t: nat, j: nat, i: nat) {
    && j < i < |es| && i < |ss| && es[j] == Return(t, error) && es[i] == Record(t)
    && t in ss[i].tasks && ss[i].tasks[t] == Task(key, Returned(error)) && t !in ss[i].cancelled
  }

  lemma StageMoves(s: Table, e: Event, s': Table, t: nat, error: string)
    requires Inv(s) && Step(s, e, s')
    ensures At(s', t, Returned(error)) ==> At(s, t, Returned(error)) || e == Return(t, error)
  {
    hide OneOwner, Switches, OneBuild;
  }

  /** Back from the build with an error means that very return. */
  lemma {:induction false} ReturnedAt(ss: seq<Table>, es: seq<Event>, t: nat, error: string, n: nat) returns (j: nat)
    requires Run(ss, es) && Empty(ss[0]) && n < |ss| && At(ss[n], t, Returned(error))
    ensures j < n && es[j] == Return(t, error)
  {
    if n > 0 {
      EmptyIsSound(ss[0]);
      RunKeepsInv(ss, es, n - 1);
      assert Step(ss[n - 1], es[n - 1], ss[n]);
      StageMoves(ss[n - 1], es[n - 1], ss[n], t, error);
      if es[n - 1] == Return(t, error) {
        j := n - 1;
      } else {
        j := ReturnedAt(ss, es, t, error, n - 1);
      }
    }
  }

  lemma EmptyIsSound(s: Table)
    requires Empty(s)
    ensures Inv(s)
  {
  }

  /** One verdict of the key being recorded, uncancelled, with the error. */
  predicate Records(s: Table, e: Event, key: Key, error: string) {
    e.Record? && e.t in s.tasks && s.tasks[e.t] == Task(key, Returned(error)) && e.t !in s.cancelled
  }

  predicate Reads(s: Table, key: Key, phase: Phase) {
    key in s.builds && s.builds[key] == phase
  }

  function PhaseOf(error: string): Phase {
    if error == "" then Done else Failed(error)
  }

  lemma PhaseMoves(s: Table, e: Event, s': Table, key: Key, error: string)
    requires Inv(s) && Step(s, e, s')
    ensures Reads(s', key, PhaseOf(error)) <==> Reads(s, key, PhaseOf(error)) || Records(s, e, key, error)
  {
    if e.Record? {
      assert Owns(s, e.t, s.tasks[e.t].key);
    }
    hide Switches, OneBuild;
  }

  /** Over any run: a key reads done exactly when a build of it came back without an
      error and was not cancelled, and failed with a text exactly when one came back
      with that text. */
  lemma {:induction false} PhaseIff(ss: seq<Table>, es: seq<Event>, key: Key, n: nat, error: string)
    requires Run(ss, es) && Empty(ss[0]) && n < |ss|
    ensures Reads(ss[n], key, if error == "" then Done else Failed(error)) <==>
            exists t: nat, j: nat, i: nat :: i < n && Ended(ss, es, key, error, t, j, i)
  {
    if n > 0 {
      PhaseIff(ss, es, key, n - 1, error);
      EmptyIsSound(ss[0]);
      RunKeepsInv(ss, es, n - 1);
      assert Step(ss[n - 1], es[n - 1], ss[n]);
      PhaseMoves(ss[n - 1], es[n - 1], ss[n], key, error);
      hide Inv, Step;
      if Records(ss[n - 1], es[n - 1], key, error) {
        var j := ReturnedAt(ss, es, es[n - 1].t, error, n - 1);
        assert Ended(ss, es, key, error, es[n - 1].t, j, n - 1);
      }
      if t: nat, j: nat, i: nat :| i < n && Ended(ss, es, key, error, t, j, i) && i == n - 1 {
        assert Records(ss[n - 1], es[n - 1], key, error);
      }
    }
  }

  lemma {:induction false} CancelledStays(ss: seq<Table>, es: seq<Event>, t: nat, i: nat, n: nat)
    requires Run(ss, es) && i <= n < |ss| && t in ss[i].cancelled
    ensures t in ss[n].cancelled
    decreases n
  {
    if i < n {
      CancelledStays(ss, es, t, i, n - 1);
      assert Step(ss[n - 1], es[n - 1], ss[n]);
    }
  }

  /** A job in flight at a cancel - queued, building or just back - ends removed,
      never failed or done, whenever its verdict comes. */
  lemma CancelledJobIsRemoved(ss: seq<Table>, es: seq<Event>, t: nat, i: nat, j: nat)
    requires Run(ss, es) && Inv(ss[0]) && i < j < |es|
    requires es[i] == CancelAll && Owes(ss[i], t) && es[j] == Record(t)
    ensures t in ss[j].tasks && ss[j].tasks[t].key !in ss[j + 1].builds
  {
    RunKeepsInv(ss, es, i);
    assert Step(ss[i], es[i], ss[i + 1]);
    CancelKeepsInv(ss[i]);
    CancelledStays(ss, es, t, i + 1, j);
    assert Step(ss[j], es[j], ss[j + 1]);
  }

  /** The table never wedges: while any goroutine is left, one of them can move. */
  lemma SomeTaskMoves(s: Table, t: nat) returns (e: Event, s': Table)
    requires Inv(s) && t in s.tasks
    ensures Step(s, e, s') && !e.Poll? && !e.CancelAll?
  {
    var u := t;
    if s.slot != {} {
      u :| u in s.slot;
    }
    match s.tasks[u].stage
    case Queued =>
      e, s' := Acquire(u), Moved(s, u, Running).(slot := {u});
    case Running =>
      e, s' := Return(u, ""), Moved(s, u, Returned(""));
    case Returned(_) =>
      e, s' := Record(u), Verdict(s, u);
    case Recorded =>
      e, s' := Release(u), s.(tasks := s.tasks - {u}, slot := s.slot - {u});
  }
}
