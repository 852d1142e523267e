// The safe write transaction (config.go): mutate, gate, commit, and with a
// remote the sync/push-retry loop against rival writers. Documents are an
// arbitrary type read through a view; file and git operations may fail whenever
// the repository is marked faulty.
module ConfigTx {
  import opened Wrappers
  import opened Order
  import opened Gate
  import opened Verdicts
  import Sampling

  const MAX_PUSH_RETRIES := 5

  /** fleet.json on disk. Bytes that decode but are not what Encode would write
      (an older schema version, other formatting) are not canonical. */
  datatype File<D> = Missing | Malformed | Doc(doc: D, canonical: bool)

  /** One commit of the branch: the document, the rest of the tree, and whether
      this console wrote it. */
  datatype Commit<D> = Commit(file: File<D>, source: string, mine: bool)

  datatype PushResult = Pushed | Conflict | PushFailed

  /** What a write that failed leaves: the file as it was, or a prefix of what was
      to be written - one that does not decode, or one that decodes to the same
      document, as everything up to the closing brace does. */
  ghost predicate Torn<D>(before: File<D>, file: File<D>, after: File<D>) {
    after == before || after == Malformed || (file.Doc? && after.Doc? && after.doc == file.doc)
  }

  ghost predicate RivalsOnly<D>(commits: seq<Commit<D>>) {
    forall i :: 0 <= i < |commits| ==> !commits[i].mine
  }

  class Repo<D(==)> {
    const hasRemote: bool
    const faulty: bool
    const keyed: bool          // the adapter can fingerprint the source tree
    var work: File<D>          // the working file
    var log: seq<Commit<D>>    // the local branch, oldest first
    var remote: seq<Commit<D>> // the remote branch

    constructor (hasRemote: bool, faulty: bool, keyed: bool, log: seq<Commit<D>>, remote: seq<Commit<D>>, work: File<D>)
      ensures this.hasRemote == hasRemote && this.faulty == faulty && this.keyed == keyed
      ensures this.log == log && this.remote == remote && this.work == work
    {
      this.hasRemote, this.faulty, this.keyed := hasRemote, faulty, keyed;
      this.log, this.remote, this.work := log, remote, work;
    }

    function Source(): string
      reads this
    {
      SourceOf(log)
    }

    /** A file, git or network operation going wrong. */
    method Fails() returns (fault: bool)
      ensures fault ==> faulty
    {
      fault := *;
      fault := fault && faulty;
    }

    method SourceKey() returns (key: Option<string>)
      ensures key.Some? ==> keyed && key.value == Source()
      ensures keyed && !faulty ==> key.Some?
    {
      var fault := Fails();
      if !keyed || fault {
        return None;
      }
      return Some(Source());
    }

    method ReadDoc() returns (r: Result<D>)
      ensures r.Ok? ==> work.Doc? && work.doc == r.value
      ensures r.Err? ==> faulty || !work.Doc?
    {
      var fault := Fails();
      if fault {
        return Err("read");
      }
      match work
      case Missing => return Err("missing");
      case Malformed => return Err("decode");
      case Doc(d, _) => return Ok(d);
    }

    /** os.WriteFile, which truncates before it writes. */
    method WriteFile(file: File<D>) returns (ok: bool)
      modifies this`work
      ensures ok ==> work == file
      ensures !ok ==> faulty && Torn(old(work), file, work)
    {
      var fault := Fails();
      if !fault {
        work := file;
        return true;
      }
      var truncated := Fails();
      var complete := Fails();
      var canonical := Fails();
      if complete && file.Doc? {
        work := Doc(file.doc, canonical);
      } else if truncated {
        work := Malformed;
      }
      return false;
    }

    method CommitFile() returns (ok: bool)
      modifies this`log
      ensures log == if ok then old(log) + [Commit(work, old(Source()), true)] else old(log)
      ensures !ok ==> faulty
    {
      var fault := Fails();
      if fault {
        return false;
      }
      log := log + [Commit(work, Source(), true)];
      return true;
    }

    /** Anybody else pushing to the same branch, at any moment. */
    method Rivals()
      modifies this`remote
      ensures old(remote) <= remote && RivalsOnly(remote[|old(remote)|..])
    {
      var commits: seq<Commit<D>> := *;
      if forall i :: 0 <= i < |commits| ==> !commits[i].mine {
        remote := remote + commits;
      }
    }

    /** Fetch and hard-reset onto the remote branch. */
    method Sync() returns (ok: bool)
      requires hasRemote
      modifies this
      ensures old(remote) <= remote && RivalsOnly(remote[|old(remote)|..])
      ensures ok ==> log == remote && work == HeadFile(log)
      ensures !ok ==> faulty && log == old(log) && work == old(work)
    {
      Rivals();
      var fault := Fails();
      if fault {
        return false;
      }
      log := remote;
      work := HeadFile(log);
      return true;
    }

    /** A push arrives only as a fast-forward of the remote branch; one that reports
        failure may have arrived all the same. */
    method Push() returns (r: PushResult, ghost arrived: bool)
      requires hasRemote
      modifies this`remote
      ensures arrived ==> old(remote) <= log && remote == log
      ensures !arrived ==> old(remote) <= remote && RivalsOnly(remote[|old(remote)|..])
      ensures r.Pushed? ==> arrived
      ensures r.Conflict? ==> !arrived && !(remote <= log)
      ensures !arrived ==> remote == old(remote) || |remote| > |old(remote)|
      ensures r.PushFailed? ==> faulty
    {
      ghost var before := remote;
      arrived := false;
      Rivals();
      var fault := Fails();
      var late := Fails();
      if fault && !late {
        return PushFailed, false;
      }
      if !(remote <= log) {
        return if fault then PushFailed else Conflict, false;
      }
      assert before <= log by {
        assert before == remote[..|before|] == log[..|before|];
      }
      remote := log;
      return if fault then PushFailed else Pushed, true;
    }
  }

  function SourceOf<D>(log: seq<Commit<D>>): string {
    if log == [] then "" else log[|log| - 1].source
  }

  function HeadFile<D>(log: seq<Commit<D>>): File<D> {
    if log == [] then Missing else log[|log| - 1].file
  }

  /** Which gate a transaction runs under: the evaluator, or the gate of a
      structural edit that accepts everything. */
  datatype GateKind = EvalGate | PassGate

  datatype TxResult<D> =
    | Unreadable | Refused(reason: string) | NoOp(doc: D) | WriteFailed
    | Rejected | Dirty | CommitFailed(doc: D) | Landed(doc: D)

  /** The parts of the console's state a transaction may change. */
  datatype World<D, G, K> = World(work: File<D>, log: seq<Commit<D>>, memo: seq<Key<G, K>>)

  /** Every verdict added is for a device of the new document inside the radius. */
  ghost predicate MemoFrom<G(!new), K(!new)>(memo: seq<Key<G, K>>, memo': seq<Key<G, K>>, source: string, v: View<G, K>,
      hosts: seq<string>) {
    forall k :: k in memo' ==> (k in memo || KeyWithin(source, v, hosts, k))
  }

  ghost predicate KeyWithin<G, K>(source: string, v: View<G, K>, hosts: seq<string>, k: Key<G, K>) {
    exists tag :: tag in v.built && (hosts == [] || tag in hosts) && k == KeyOf(source, v, tag)
  }

  /** The memo after an acceptance: the keys of the sampled hosts that build were
      recorded. RecordedMeaning and KeysForMembers say what that leaves in it. */
  ghost predicate RecordsTheSample<G(!new), K(!new)>(memo: seq<Key<G, K>>, memo': seq<Key<G, K>>, source: string,
      v: View<G, K>, hosts: seq<string>) {
    exists sampled :: IsSampledRadius(v, hosts, sampled) && memo' == Recorded(memo, KeysFor(source, v, sampled))
  }

  ghost predicate MemoKept<G, K>(memo: seq<Key<G, K>>) {
    Distinct(memo) && |memo| <= MAX_VERDICTS
  }

  /** Accepted: under the evaluator and a sound memo, only on its decision. */
  ghost predicate Accepted<D, G(!new), K(!new)>(
      view: D -> View<G, K>, accept: Key<G, K> -> bool, kind: GateKind, w: World<D, G, K>,
      next: D, hosts: seq<string>, w': World<D, G, K>) {
    && w'.work == Doc(next, true)
    && (kind.EvalGate? && SoundMemo(accept, Elements(w.memo)) ==>
        GateDecision(accept, SourceOf(w.log), view(next), hosts))
    && MemoFrom(w.memo, w'.memo, SourceOf(w.log), view(next), hosts)
    && (MemoKept(w.memo) ==> MemoKept(w'.memo))
  }

  /** The whole effect of one transaction, outcome by outcome. edit is what the
      mutation makes of the working document. */
  ghost predicate TxEffect<D(!new), G(!new), K(!new)>(
      view: D -> View<G, K>, accept: Key<G, K> -> bool, kind: GateKind, faulty: bool,
      edit: D -> Result<D>, hosts: seq<string>, w: World<D, G, K>, r: TxResult<D>, w': World<D, G, K>) {
    match r
    case Unreadable => w' == w && (faulty || !w.work.Doc?)
    case Refused(e) => w' == w && w.work.Doc? && edit(w.work.doc) == Err(e)
    case NoOp(d) => w' == w && w.work == Doc(d, true) && edit(d) == Ok(d)
    case WriteFailed =>
      && Effective(edit, w) && faulty
      && w' == w.(work := w'.work) && Torn(w.work, Doc(edit(w.work.doc).value, true), w'.work)
    case Rejected =>
      && w' == w && Effective(edit, w) && kind.EvalGate?
      && (!faulty && SoundMemo(accept, Elements(w.memo)) ==>
            !GateDecision(accept, SourceOf(w.log), view(edit(w.work.doc).value), hosts))
    case Dirty =>
      && Effective(edit, w) && faulty && kind.EvalGate?
      && w' == w.(work := w'.work) && Torn(Doc(edit(w.work.doc).value, true), w.work, w'.work)
    case CommitFailed(d) =>
      && Effective(edit, w) && edit(w.work.doc) == Ok(d) && faulty
      && Accepted(view, accept, kind, w, d, hosts, w') && w'.log == w.log
    case Landed(d) =>
      && Effective(edit, w) && edit(w.work.doc) == Ok(d)
      && Accepted(view, accept, kind, w, d, hosts, w')
      && w'.log == w.log + [Commit(Doc(d, true), SourceOf(w.log), true)]
  }

  /** The mutation applies and changes the bytes of the file. */
  ghost predicate Effective<D, G, K>(edit: D -> Result<D>, w: World<D, G, K>) {
    w.work.Doc? && edit(w.work.doc).Ok? && w.work != Doc(edit(w.work.doc).value, true)
  }

  lemma SampledWithinRadius<G(!new), K(!new)>(v: View<G, K>, hosts: seq<string>, sampled: seq<string>, h: string)
    requires IsSampledRadius(v, hosts, sampled) && h in sampled
    ensures hosts == [] || h in hosts
  {
    assert h in Elements(sampled);
  }

  lemma RecordedFrom<G(!new), K(!new)>(memo: seq<Key<G, K>>, source: string, v: View<G, K>, hosts: seq<string>,
      sampled: seq<string>)
    requires MemoKept(memo) && IsSampledRadius(v, hosts, sampled)
    ensures MemoFrom(memo, Recorded(memo, KeysFor(source, v, sampled)), source, v, hosts)
    ensures MemoKept(Recorded(memo, KeysFor(source, v, sampled)))
  {
    var keys := KeysFor(source, v, sampled);
    RecordedMeaning(memo, keys);
    forall k | k in Recorded(memo, keys) && k !in memo
      ensures KeyWithin(source, v, hosts, k)
    {
      KeysForMembers(source, v, sampled, k);
      var h :| h in sampled && h in v.built && KeyOf(source, v, h) == k;
      SampledWithinRadius(v, hosts, sampled, h);
    }
  }

  lemma {:induction false} NothingNew<T(!new)>(order: seq<T>, xs: seq<T>)
    requires forall x :: x in xs ==> x in order
    ensures AddNew(order, xs) == order
    decreases |xs|
  {
    if xs != [] {
      assert forall x :: x in xs[1..] ==> x in xs;
      NothingNew(order, xs[1..]);
    }
  }

  /** A sample whose every host has a recorded verdict leaves the memo as it is. */
  lemma KnownAddsNothing<G(!new), K(!new)>(memo: seq<Key<G, K>>, source: string, v: View<G, K>, sampled: seq<string>)
    requires MemoKept(memo) && IsTodo(Elements(memo), source, v, sampled, [])
    ensures Recorded(memo, KeysFor(source, v, sampled)) == memo
  {
    forall k | k in KeysFor(source, v, sampled) ensures k in memo {
      KeysForMembers(source, v, sampled, k);
      var h :| h in sampled && h in v.built && KeyOf(source, v, h) == k;
      assert h !in [] && Known(Elements(memo), source, v, h);
    }
    NothingNew(memo, KeysFor(source, v, sampled));
  }

  lemma {:induction false} DistinctFits(s: seq<string>, t: set<string>)
    requires Distinct(s) && forall x :: x in s ==> x in t
    ensures |s| <= |t|
  {
    if s != [] {
      var n := |s| - 1;
      assert s[n] !in s[..n] && s[n] in s;
      DistinctFits(s[..n], t - {s[n]});
    }
  }

  lemma {:induction false} AddNewBounded<T(!new)>(order: seq<T>, xs: seq<T>)
    ensures |AddNew(order, xs)| <= |order| + |xs|
    decreases |xs|
  {
    if xs != [] {
      AddNewBounded(if xs[0] in order then order else order + [xs[0]], xs[1..]);
    }
  }

  lemma {:induction false} KeysForBounded<G, K>(source: string, v: View<G, K>, hosts: seq<string>)
    ensures |KeysFor(source, v, hosts)| <= |hosts|
  {
    if hosts != [] {
      KeysForBounded(source, v, hosts[..|hosts| - 1]);
    }
  }

  lemma SampleIsBounded<G, K>(v: View<G, K>, hosts: seq<string>, sampled: seq<string>)
    requires IsSampledRadius(v, hosts, sampled)
    ensures |sampled| <= |v.built| + 1
  {
    if |hosts| != 1 {
      forall x | x in sampled ensures x in v.built.Keys {
        assert x in Elements(sampled);
      }
      DistinctFits(sampled, v.built.Keys);
    }
  }

  lemma RepresentedBy<G, K>(v: View<G, K>, hosts: seq<string>, sampled: seq<string>, tag: string)
      returns (rep: string)
    requires IsSampledRadius(v, hosts, sampled) && tag in v.built && (hosts == [] || tag in hosts)
    ensures rep in sampled && SameShape(v, rep, tag)
  {
    if |hosts| == 1 {
      rep := tag;
    } else {
      var pool := if hosts == [] then v.built.Keys else Elements(hosts);
      rep := Sampling.EveryShapeSampled(v.built, pool, tag);
      assert rep in Elements(sampled);
    }
  }

  /** So what was accepted is not evaluated again: while the memo has room, every
      active device of the radius has its verdict in it. */
  lemma AcceptedIsRemembered<G(!new), K(!new)>(memo: seq<Key<G, K>>, memo': seq<Key<G, K>>, source: string,
      v: View<G, K>, hosts: seq<string>, tag: string)
    requires MemoKept(memo) && |memo| + |v.built| < MAX_VERDICTS
    requires RecordsTheSample(memo, memo', source, v, hosts)
    requires tag in v.built && (hosts == [] || tag in hosts)
    ensures KeyOf(source, v, tag) in memo'
  {
    var sampled :| IsSampledRadius(v, hosts, sampled) && memo' == Recorded(memo, KeysFor(source, v, sampled));
    var rep := RepresentedBy(v, hosts, sampled, tag);
    var keys := KeysFor(source, v, sampled);
    KeysForMembers(source, v, sampled, KeyOf(source, v, tag));
    assert KeyOf(source, v, rep) == KeyOf(source, v, tag);
    SampleIsBounded(v, hosts, sampled);
    KeysForBounded(source, v, sampled);
    AddNewBounded(memo, keys);
    RecordedMeaning(memo, keys);
  }

  /** applyTx's two narrowings, as the sampled hosts, the ones left to evaluate
      and the keys to record. */
  method Narrow<G(==,!new), K(==,!new)>(source: Option<string>, cache: VerdictCache<Key<G, K>>, v: View<G, K>,
      hosts: seq<string>)
    returns (sampled: seq<string>, todo: seq<string>, keys: seq<Key<G, K>>)
    requires cache.Valid()
    ensures IsSampledRadius(v, hosts, sampled)
    ensures source.None? ==> todo == sampled && keys == []
    ensures source.Some? ==>
              IsTodo(Elements(cache.order), source.value, v, sampled, todo) && keys == KeysFor(source.value, v, sampled)
  {
    if hosts == [] {
      sampled := Sampling.Representatives(v.built);
    } else {
      sampled := Sampling.SampleHosts(v.built, hosts);
    }
    todo, keys := PartitionHosts(source, cache, v, sampled);
  }
}
