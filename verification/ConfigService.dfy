// The console's one writer (config.go): applyTx over a repository and the
// verdict memo, Apply and ApplyStructural with and without a remote, and the
// sync tick.
module ConfigService {
  import opened Wrappers
  import opened Order
  import opened Gate
  import opened Verdicts
  import opened ConfigTx

  datatype ApplyResult<D> = Applied(doc: D) | NotApplied(reason: string)

  /** What a successful write leaves on the remote: the mutation applied to the
      branch tip it was pushed onto, in at most one commit of ours. */
  ghost predicate PushedOnto<D>(edit: D -> Result<D>, base: seq<Commit<D>>, d: D, remote: seq<Commit<D>>) {
    && HeadFile(base).Doc? && edit(HeadFile(base).doc) == Ok(d)
    && remote == if HeadFile(base) == Doc(d, true) then base
                 else base + [Commit(Doc(d, true), SourceOf(base), true)]
  }

  /** How one pass of the retry loop ends. */
  datatype Pass<D> = Through(doc: D) | LostRace | Ended(reason: string)

  /** A transaction on a clean checkout of the base goes through: the document can be
      read, the edit applies, and it changes nothing or the gate takes it. */
  ghost predicate GoesThrough<D(!new), G(!new), K(!new)>(
      view: D -> View<G, K>, accept: Key<G, K> -> bool, kind: GateKind, edit: D -> Result<D>, hosts: seq<string>,
      base: seq<Commit<D>>) {
    HeadFile(base).Doc? && edit(HeadFile(base).doc).Ok? &&
    var next := edit(HeadFile(base).doc).value;
    HeadFile(base) == Doc(next, true) || kind.PassGate? || GateDecision(accept, SourceOf(base), view(next), hosts)
  }

  /** Others' commits stand on the remote on top of the base. */
  ghost predicate Overtaken<D>(base: seq<Commit<D>>, remote: seq<Commit<D>>) {
    base < remote && RivalsOnly(remote[|base|..])
  }

  /** Every base tried but the last went through and was overtaken. */
  ghost predicate LostRaces<D(!new), G(!new), K(!new)>(
      view: D -> View<G, K>, accept: Key<G, K> -> bool, kind: GateKind, edit: D -> Result<D>, hosts: seq<string>,
      bases: seq<seq<Commit<D>>>) {
    forall i :: 0 <= i < |bases| - 1 ==>
      GoesThrough(view, accept, kind, edit, hosts, bases[i]) && Overtaken(bases[i], bases[i + 1])
  }

  class ConfigService<D(==,!new), G(==,!new), K(==,!new)> {
    const repo: Repo<D>
    const verdicts: VerdictCache<Key<G, K>>
    const view: D -> View<G, K>
    const accept: Key<G, K> -> bool
    var snapshot: D

    ghost predicate Valid()
      reads this, repo, verdicts
    {
      verdicts.Valid()
    }

    ghost function State(): World<D, G, K>
      reads repo, verdicts
    {
      World(repo.work, repo.log, verdicts.order)
    }

    /** NewConfigService, after its first reload. */
    constructor (repo: Repo<D>, view: D -> View<G, K>, accept: Key<G, K> -> bool, snapshot: D)
      ensures Valid() && this.repo == repo && this.view == view && this.accept == accept
      ensures fresh(verdicts) && verdicts.order == [] && this.snapshot == snapshot
    {
      this.repo, this.view, this.accept, this.snapshot := repo, view, accept, snapshot;
      verdicts := new VerdictCache();
    }

    /** Publishes the working document as the read snapshot. */
    method Reload() returns (ok: bool)
      modifies this`snapshot
      ensures ok ==> repo.work.Doc? && snapshot == repo.work.doc
      ensures !ok ==> snapshot == old(snapshot) && (repo.faulty || !repo.work.Doc?)
    {
      var r := repo.ReadDoc();
      match r
      case Err(_) => return false;
      case Ok(d) =>
        snapshot := d;
        return true;
    }

    /** Gate.Validate: the evaluator may also fail for reasons of its own. */
    method Validate(kind: GateKind, v: View<G, K>, hosts: seq<string>) returns (ok: bool)
      ensures kind.PassGate? ==> ok
      ensures kind.EvalGate? && ok ==> Validates(accept, repo.Source(), v, hosts)
      ensures kind.EvalGate? && !repo.faulty ==> ok == Validates(accept, repo.Source(), v, hosts)
    {
      if kind.PassGate? {
        return true;
      }
      var fault := repo.Fails();
      return Validates(accept, repo.Source(), v, hosts) && !fault;
    }

    /** Samples, drops memoised hosts, and asks the gate about the rest unless a
        non-empty sample is wholly memoised. record says whether the gate ran. */
    method Decide(kind: GateKind, v: View<G, K>, hosts: seq<string>)
      returns (ok: bool, ran: bool, keys: seq<Key<G, K>>)
      requires verdicts.Valid()
      ensures ok && ran ==> MemoFrom(verdicts.order, Recorded(verdicts.order, keys), repo.Source(), v, hosts)
      ensures !ok ==> kind.EvalGate?
      ensures ok ==>
                var after := if ran then Recorded(verdicts.order, keys) else verdicts.order;
                after == verdicts.order || RecordsTheSample(verdicts.order, after, repo.Source(), v, hosts)
      ensures ok && repo.keyed && !repo.faulty ==>
                var after := if ran then Recorded(verdicts.order, keys) else verdicts.order;
                RecordsTheSample(verdicts.order, after, repo.Source(), v, hosts)
      ensures kind.EvalGate? && ok && SoundMemo(accept, Elements(verdicts.order)) ==>
                GateDecision(accept, repo.Source(), v, hosts)
      ensures !ok && !repo.faulty && SoundMemo(accept, Elements(verdicts.order)) ==>
                !GateDecision(accept, repo.Source(), v, hosts)
    {
      var source := repo.SourceKey();
      var sampled, todo;
      sampled, todo, keys := Narrow(source, verdicts, v, hosts);
      ghost var memo := if source.None? then {} else Elements(verdicts.order);
      assert SoundMemo(accept, Elements(verdicts.order)) ==> SoundMemo(accept, memo);
      if SoundMemo(accept, memo) {
        DecisionIsRefinement(accept, memo, repo.Source(), v, hosts, sampled, todo);
      }
      RecordedFrom(verdicts.order, repo.Source(), v, hosts, sampled);
      if sampled != [] && todo == [] {
        if source.Some? {
          KnownAddsNothing(verdicts.order, source.value, v, sampled);
        }
        return true, false, keys;
      }
      ran := true;
      ok := Validate(kind, v, todo);
      if keys == [] {
        assert AddNew(verdicts.order, keys) == verdicts.order;
      }
    }

    /** applyTx: load, mutate, write, gate, commit; a rejection restores the
        working file. */
    method ApplyTx(edit: D -> Result<D>, hosts: seq<string>, kind: GateKind) returns (r: TxResult<D>)
      requires Valid()
      modifies repo`work, repo`log, verdicts
      ensures Valid()
      ensures TxEffect(view, accept, kind, repo.faulty, edit, hosts, old(State()), r, State())
      ensures verdicts.order != old(verdicts.order) ==>
                (r.Landed? || r.CommitFailed?) &&
                RecordsTheSample(old(verdicts.order), verdicts.order, old(repo.Source()), view(r.doc), hosts)
      ensures (r.Landed? || r.CommitFailed?) && repo.keyed && !repo.faulty ==>
                RecordsTheSample(old(verdicts.order), verdicts.order, old(repo.Source()), view(r.doc), hosts)
    {
      var orig := repo.ReadDoc();
      if orig.Err? {
        return Unreadable;
      }
      var origFile := repo.work;
      var edited := edit(orig.value);
      if edited.Err? {
        return Refused(edited.error);
      }
      var next := edited.value;
      if Doc(next, true) == origFile {
        return NoOp(next);
      }
      var wrote := repo.WriteFile(Doc(next, true));
      if !wrote {
        return WriteFailed;
      }
      var ok, ran, keys := Decide(kind, view(next), hosts);
      if !ok {
        var restored := repo.WriteFile(origFile);
        if !restored {
          return Dirty;
        }
        return Rejected;
      }
      if ran {
        RecordedMeaning(verdicts.order, keys);
        verdicts.Record(keys);
      }
      var committed := repo.CommitFile();
      if !committed {
        return CommitFailed(next);
      }
      return Landed(next);
    }

    /** applyOnce: the transaction, then the snapshot on success. */
    method ApplyOnce(edit: D -> Result<D>, hosts: seq<string>, kind: GateKind) returns (r: TxResult<D>)
      requires Valid()
      modifies repo`work, repo`log, verdicts, this`snapshot
      ensures Valid()
      ensures TxEffect(view, accept, kind, repo.faulty, edit, hosts, old(State()), r, State())
      ensures snapshot == (match r case NoOp(d) => d case Landed(d) => d case _ => old(snapshot))
    {
      r := ApplyTx(edit, hosts, kind);
      match r {
        case NoOp(d) => snapshot := d;
        case Landed(d) => snapshot := d;
        case _ =>
      }
    }

    /** applyWithGate on a repository without a remote: one transaction. */
    method ApplyLocal(edit: D -> Result<D>, hosts: seq<string>, kind: GateKind)
        returns (r: ApplyResult<D>, tx: TxResult<D>)
      requires Valid() && !repo.hasRemote
      modifies repo`work, repo`log, verdicts, this`snapshot
      ensures Valid()
      ensures TxEffect(view, accept, kind, repo.faulty, edit, hosts, old(State()), tx, State())
      ensures r.Applied? <==> tx.NoOp? || tx.Landed?
      ensures r.Applied? ==> snapshot == r.doc == tx.doc
      ensures !r.Applied? ==> snapshot == old(snapshot)
    {
      tx := ApplyOnce(edit, hosts, kind);
      match tx {
        case NoOp(d) => r := Applied(d);
        case Landed(d) => r := Applied(d);
        case _ => r := NotApplied("transaction failed");
      }
    }

    /** applyWithGate against a remote other writers push to: sync, apply on the
        fresh base, push, and on a lost race start over, at most five times. bases
        are the remote tips tried, landed says whether the remote got the attempt on
        the last one; a failure after a push that reported an error can have. Without
        faults and with a sound memo it is refused exactly when the last base does not
        take the edit, or five bases took it and others overtook every one. */
    method ApplyRemote(edit: D -> Result<D>, hosts: seq<string>, kind: GateKind)
      returns (r: ApplyResult<D>, pushes: nat, ghost bases: seq<seq<Commit<D>>>, ghost landed: bool)
      requires Valid() && repo.hasRemote
      modifies repo, verdicts, this`snapshot
      ensures Valid() && pushes <= 5
      ensures r.Applied? ==> landed && snapshot == r.doc
      ensures landed && !r.Applied? ==> repo.faulty
      ensures landed ==>
                && bases != []
                && var base := bases[|bases| - 1];
                && old(repo.remote) <= base && RivalsOnly(base[|old(repo.remote)|..])
                && PushedOnto(edit, base, snapshot, repo.remote)
                && repo.log == repo.remote && repo.work == Doc(snapshot, true)
      ensures !landed ==>
                old(repo.remote) <= repo.remote && RivalsOnly(repo.remote[|old(repo.remote)|..])
      ensures kind.EvalGate? && SoundMemo(accept, Elements(old(verdicts.order))) ==>
                SoundMemo(accept, Elements(verdicts.order)) &&
                (landed && repo.remote != bases[|bases| - 1] ==>
                   GateDecision(accept, SourceOf(bases[|bases| - 1]), view(snapshot), hosts))
      ensures !repo.faulty && (kind.EvalGate? ==> SoundMemo(accept, Elements(old(verdicts.order)))) ==>
                && 1 <= |bases| <= 5 && LostRaces(view, accept, kind, edit, hosts, bases)
                && var last := bases[|bases| - 1];
                && (r.NotApplied? <==>
                      !GoesThrough(view, accept, kind, edit, hosts, last) ||
                      (|bases| == 5 && Overtaken(last, repo.remote)))
                && pushes == if GoesThrough(view, accept, kind, edit, hosts, last) then |bases| else |bases| - 1
    {
      hide GoesThrough, PushedOnto;
      pushes := 0;
      bases := [];
      landed := false;
      ghost var genuine := !repo.faulty && (kind.EvalGate? ==> SoundMemo(accept, Elements(old(verdicts.order))));
      while pushes < MAX_PUSH_RETRIES
        invariant Valid() && pushes <= MAX_PUSH_RETRIES && !landed && |bases| == pushes
        invariant old(repo.remote) <= repo.remote && RivalsOnly(repo.remote[|old(repo.remote)|..])
        invariant kind.EvalGate? && SoundMemo(accept, Elements(old(verdicts.order))) ==>
                  SoundMemo(accept, Elements(verdicts.order))
        invariant genuine ==> LostRaces(view, accept, kind, edit, hosts, bases)
        invariant genuine && bases != [] ==>
                  GoesThrough(view, accept, kind, edit, hosts, bases[|bases| - 1]) &&
                  Overtaken(bases[|bases| - 1], repo.remote)
      {
        ghost var before, seen := bases, repo.remote;
        var pass, pushed;
        ghost var base;
        pass, pushed, base, landed := Attempt(edit, hosts, kind);
        RivalsCompose(old(repo.remote), seen, base);
        if !landed {
          RivalsCompose(old(repo.remote), base, repo.remote);
        }
        if bases != [] && Overtaken(bases[|bases| - 1], seen) {
          RivalsCompose(bases[|bases| - 1], seen, base);
        }
        bases := bases + [base];
        assert forall i :: 0 <= i < |before| ==> bases[i] == before[i];
        if pushed {
          pushes := pushes + 1;
        }
        match pass
        case Through(d) =>
          OursOvertakesNothing(edit, base, d, repo.remote);
          return Applied(d), pushes, bases, landed;
        case Ended(reason) => return NotApplied(reason), pushes, bases, landed;
        case LostRace =>
      }
      return NotApplied("gave up"), pushes, bases, false;
    }

    /** One pass of the loop: sync, apply on the fresh base, push. */
    method Attempt(edit: D -> Result<D>, hosts: seq<string>, kind: GateKind)
      returns (pass: Pass<D>, pushed: bool, ghost base: seq<Commit<D>>, ghost landed: bool)
      requires Valid() && repo.hasRemote
      modifies repo, verdicts, this`snapshot
      ensures Valid() && old(repo.remote) <= base && RivalsOnly(base[|old(repo.remote)|..])
      ensures landed ==> PushedOnto(edit, base, snapshot, repo.remote)
      ensures landed ==> repo.log == repo.remote && repo.work == Doc(snapshot, true)
      ensures !landed ==> base <= repo.remote && RivalsOnly(repo.remote[|base|..])
      ensures pass.Through? ==> pushed && landed && snapshot == pass.doc
      ensures pass.LostRace? ==> pushed && !landed && Overtaken(base, repo.remote)
      ensures landed && !pass.Through? ==> pass.Ended? && repo.faulty
      ensures kind.EvalGate? && SoundMemo(accept, Elements(old(verdicts.order))) ==>
                SoundMemo(accept, Elements(verdicts.order)) &&
                (landed && repo.remote != base ==> GateDecision(accept, SourceOf(base), view(snapshot), hosts))
      ensures !repo.faulty && (kind.EvalGate? ==> SoundMemo(accept, Elements(old(verdicts.order)))) ==>
                (pass.Ended? <==> !GoesThrough(view, accept, kind, edit, hosts, base)) && (pushed <==> !pass.Ended?)
    {
      hide GoesThrough;
      var synced := Resync();
      base := repo.remote;
      if !synced {
        NoDocument(view, accept, kind, edit, hosts, base);
        return Ended("sync"), false, base, false;
      }
      ghost var state := State();
      var tx := ApplyOnce(edit, hosts, kind);
      GatedMemoStaysSound(view, accept, kind, repo.faulty, edit, hosts, state, tx, State());
      if !repo.faulty && (kind.EvalGate? ==> SoundMemo(accept, Elements(state.memo))) {
        GenuineOutcome(view, accept, kind, edit, hosts, state, tx, State());
      }
      if !(tx.NoOp? || tx.Landed?) {
        return Ended("transaction failed"), false, base, false;
      }
      var answer;
      answer, landed := repo.Push();
      if landed {
        assert base == repo.remote[..|base|];
      }
      match answer
      case Pushed => return Through(tx.doc), true, base, landed;
      case PushFailed => return Ended("push"), true, base, landed;
      case Conflict => return LostRace, true, base, landed;
    }

    /** Sync then reload: the top of the retry loop, and one tick of SyncLoop. */
    method Resync() returns (ok: bool)
      requires Valid() && repo.hasRemote
      modifies repo, this`snapshot
      ensures Valid() && verdicts.order == old(verdicts.order)
      ensures old(repo.remote) <= repo.remote && RivalsOnly(repo.remote[|old(repo.remote)|..])
      ensures ok ==> repo.log == repo.remote && repo.work == HeadFile(repo.log)
      ensures ok ==> repo.work.Doc? && snapshot == repo.work.doc
      ensures !ok ==> snapshot == old(snapshot)
      ensures !ok && !repo.faulty ==> !HeadFile(repo.remote).Doc?
    {
      ok := repo.Sync();
      if ok {
        ok := Reload();
      }
    }
  }

  lemma RivalsCompose<D>(a: seq<Commit<D>>, b: seq<Commit<D>>, c: seq<Commit<D>>)
    requires a <= b <= c && RivalsOnly(b[|a|..]) && RivalsOnly(c[|b|..])
    ensures RivalsOnly(c[|a|..])
  {
    forall i | 0 <= i < |c[|a|..]| ensures !c[|a|..][i].mine {
      if i < |b| - |a| {
        assert c[|a|..][i] == b[|a|..][i];
      } else {
        assert c[|a|..][i] == c[|b|..][i - (|b| - |a|)];
      }
    }
  }

  /** Under the evaluator only verdicts it gave enter the memo. */
  lemma GatedMemoStaysSound<D(!new), G(!new), K(!new)>(
      view: D -> View<G, K>, accept: Key<G, K> -> bool, kind: GateKind, faulty: bool,
      edit: D -> Result<D>, hosts: seq<string>, w: World<D, G, K>, r: TxResult<D>, w': World<D, G, K>)
    requires TxEffect(view, accept, kind, faulty, edit, hosts, w, r, w')
    ensures kind.EvalGate? && SoundMemo(accept, Elements(w.memo)) ==> SoundMemo(accept, Elements(w'.memo))
  {
    if kind.EvalGate? && SoundMemo(accept, Elements(w.memo)) && (r.Landed? || r.CommitFailed?) {
      var v := view(r.doc);
      forall k | k in w'.memo && k !in w.memo ensures accept(k) {
        var tag :| tag in v.built && (hosts == [] || tag in hosts) && k == KeyOf(SourceOf(w.log), v, tag);
        assert HostPasses(accept, SourceOf(w.log), v, tag);
      }
    }
  }

  /** Without faults and with a sound memo a transaction on a clean checkout succeeds
      exactly when the edit goes through. */
  lemma GenuineOutcome<D(!new), G(!new), K(!new)>(
      view: D -> View<G, K>, accept: Key<G, K> -> bool, kind: GateKind, edit: D -> Result<D>, hosts: seq<string>,
      w: World<D, G, K>, r: TxResult<D>, w': World<D, G, K>)
    requires TxEffect(view, accept, kind, false, edit, hosts, w, r, w') && w.work == HeadFile(w.log)
    requires kind.EvalGate? ==> SoundMemo(accept, Elements(w.memo))
    ensures r.NoOp? || r.Landed? <==> GoesThrough(view, accept, kind, edit, hosts, w.log)
  {
  }

  lemma NoDocument<D(!new), G(!new), K(!new)>(
      view: D -> View<G, K>, accept: Key<G, K> -> bool, kind: GateKind, edit: D -> Result<D>, hosts: seq<string>,
      base: seq<Commit<D>>)
    ensures !HeadFile(base).Doc? ==> !GoesThrough(view, accept, kind, edit, hosts, base)
  {
  }

  lemma OursOvertakesNothing<D>(edit: D -> Result<D>, base: seq<Commit<D>>, d: D, remote: seq<Commit<D>>)
    requires PushedOnto(edit, base, d, remote)
    ensures !Overtaken(base, remote)
  {
    if base < remote {
      assert remote[|base|..][0].mine;
    }
  }
}
