// Whole runs of the configuration plane: any sequence of gated writes,
// structural writes, syncs and lost verdicts, each with any outcome the
// transaction allows.
module ConfigRuns {
  import opened Wrappers
  import opened Order
  import opened Gate
  import opened Verdicts
  import opened ConfigTx

  datatype Event<!D> =
    | Tx(edit: D -> Result<D>, hosts: seq<string>, kind: GateKind, result: TxResult<D>)
    | Synced
    | VerdictsLost

  /** Every active device of the document evaluates against the source. */
  ghost predicate ValidDoc<D, G, K>(view: D -> View<G, K>, accept: Key<G, K> -> bool, source: string, file: File<D>) {
    file.Doc? ==> AllPass(accept, source, view(file.doc))
  }

  /** Jointly inductive: the committed document and the working document are
      valid, and every recorded verdict is one the evaluator would give. */
  ghost predicate Sound<D(!new), G(!new), K(!new)>(view: D -> View<G, K>, accept: Key<G, K> -> bool,
      w: World<D, G, K>) {
    && ValidDoc(view, accept, SourceOf(w.log), HeadFile(w.log))
    && ValidDoc(view, accept, SourceOf(w.log), w.work)
    && SoundMemo(accept, Elements(w.memo))
    && MemoKept(w.memo)
  }

  /** What makes a transaction safe whoever evaluates: a gated edit is shielded by
      its radius against the document it lands on, a structural edit affects no
      device's evaluation. Both are read off documents; UnshieldedEditBreaksHead
      shows the first is needed. */
  ghost predicate Contract<D, G(!new), K(!new)>(view: D -> View<G, K>, accept: Key<G, K> -> bool, w: World<D, G, K>,
      e: Event<D>) {
    e.Tx? && Effective(e.edit, w) ==>
      var base, next := view(w.work.doc), view(e.edit(w.work.doc).value);
      match e.kind
      case EvalGate => Shielded(SourceOf(w.log), base, SourceOf(w.log), next, e.hosts)
      case PassGate => Harmless(accept, SourceOf(w.log), base, next)
  }

  /** One step. Synced lands on whatever valid branch the remote has by then;
      VerdictsLost is eviction or a restart. */
  ghost predicate Step<D(!new), G(!new), K(!new)>(
      view: D -> View<G, K>, accept: Key<G, K> -> bool, faulty: bool, w: World<D, G, K>, e: Event<D>,
          w': World<D, G, K>) {
    match e
    case Tx(edit, hosts, kind, result) =>
      TxEffect(view, accept, kind, faulty, edit, hosts, w, result, w')
    case Synced =>
      w'.memo == w.memo && w'.work == HeadFile(w'.log) && ValidDoc(view, accept, SourceOf(w'.log), HeadFile(w'.log))
    case VerdictsLost =>
      w'.log == w.log && w'.work == w.work && MemoKept(w'.memo) && forall k :: k in w'.memo ==> k in w.memo
  }

  lemma EditKeepsValid<D(!new), G(!new), K(!new)>(
      view: D -> View<G, K>, accept: Key<G, K> -> bool, w: World<D, G, K>, e: Event<D>)
    requires Sound(view, accept, w) && e.Tx? && Effective(e.edit, w) && Contract(view, accept, w, e)
    requires e.kind.EvalGate? ==> GateDecision(accept, SourceOf(w.log), view(e.edit(w.work.doc).value), e.hosts)
    ensures AllPass(accept, SourceOf(w.log), view(e.edit(w.work.doc).value))
  {
    var source := SourceOf(w.log);
    var base, next := view(w.work.doc), view(e.edit(w.work.doc).value);
    if e.kind.EvalGate? {
      ShieldProtects(accept, source, base, source, next, e.hosts);
    } else {
      forall tag | tag in next.built ensures HostPasses(accept, source, next, tag) {
        assert HostPasses(accept, source, base, tag);
      }
    }
  }

  /** The working file is left holding a document no gate accepted: a rollback that
      failed, or the write before the gate that failed with everything on disk. */
  ghost predicate Strays<D, G, K>(w: World<D, G, K>, e: Event<D>, w': World<D, G, K>) {
    e.Tx? && (e.result.Dirty? || e.result.WriteFailed?) && Effective(e.edit, w) &&
    w'.work.Doc? && w'.work.doc == e.edit(w.work.doc).value
  }

  /** ... and that document does not evaluate. */
  ghost predicate Poisons<D, G, K>(view: D -> View<G, K>, accept: Key<G, K> -> bool, w: World<D, G, K>, e: Event<D>,
      w': World<D, G, K>) {
    Strays(w, e, w') && !AllPass(accept, SourceOf(w.log), view(e.edit(w.work.doc).value))
  }

  lemma AcceptedStaysSound<D(!new), G(!new), K(!new)>(
      view: D -> View<G, K>, accept: Key<G, K> -> bool, faulty: bool, w: World<D, G, K>, e: Event<D>,
      w': World<D, G, K>)
    requires Sound(view, accept, w) && Contract(view, accept, w, e)
    requires Step(view, accept, faulty, w, e, w') && e.Tx? && (e.result.Landed? || e.result.CommitFailed?)
    ensures Sound(view, accept, w')
  {
    EditKeepsValid(view, accept, w, e);
    var v := view(e.result.doc);
    assert SourceOf(w'.log) == SourceOf(w.log);
    forall k | k in w'.memo ensures accept(k) {
      if k in w.memo {
        assert k in Elements(w.memo);
      } else {
        var tag :| tag in v.built && k == KeyOf(SourceOf(w.log), v, tag);
        assert HostPasses(accept, SourceOf(w.log), v, tag);
      }
    }
  }

  /** Soundness over one step, exactly: whatever else fails, only a stray document
      that does not evaluate costs it - and that always does. */
  lemma StepSoundIff<D(!new), G(!new), K(!new)>(
      view: D -> View<G, K>, accept: Key<G, K> -> bool, faulty: bool, w: World<D, G, K>, e: Event<D>,
      w': World<D, G, K>)
    requires Sound(view, accept, w) && Contract(view, accept, w, e)
    requires Step(view, accept, faulty, w, e, w')
    ensures Sound(view, accept, w') <==> !Poisons(view, accept, w, e, w')
  {
    if e.Tx? && (e.result.Landed? || e.result.CommitFailed?) {
      AcceptedStaysSound(view, accept, faulty, w, e, w');
    } else if e.VerdictsLost? {
      assert forall k :: k in w'.memo ==> k in Elements(w.memo);
    }
  }

  /** What a genuine refusal refused: with an unbounded radius, an active host in it
      or several hosts, the document itself does not evaluate. A single retired host
      is refused whatever the document is. */
  lemma RefusalIsOfTheDocument<G(!new), K(!new)>(accept: Key<G, K> -> bool, source: string, v: View<G, K>,
      hosts: seq<string>)
    requires !GateDecision(accept, source, v, hosts)
    requires hosts == [] || SomeActive(v, hosts) || |hosts| > 1
    ensures !AllPass(accept, source, v)
  {
  }

  /** So behind a genuine refusal a rollback that leaves the document poisons, and
      one that leaves anything else does not. */
  lemma LostRollbackPoisonsIff<D(!new), G(!new), K(!new)>(
      view: D -> View<G, K>, accept: Key<G, K> -> bool, faulty: bool, w: World<D, G, K>, e: Event<D>,
      w': World<D, G, K>)
    requires Sound(view, accept, w) && Contract(view, accept, w, e) && Step(view, accept, faulty, w, e, w')
    requires e.Tx? && e.result.Dirty?
    requires var v := view(e.edit(w.work.doc).value);
             !GateDecision(accept, SourceOf(w.log), v, e.hosts) &&
             (e.hosts == [] || SomeActive(v, e.hosts) || |e.hosts| > 1)
    ensures Sound(view, accept, w') <==> !(w'.work.Doc? && w'.work.doc == e.edit(w.work.doc).value)
  {
    RefusalIsOfTheDocument(accept, SourceOf(w.log), view(e.edit(w.work.doc).value), e.hosts);
    StepSoundIff(view, accept, faulty, w, e, w');
  }

  ghost predicate Run<D(!new), G(!new), K(!new)>(
      view: D -> View<G, K>, accept: Key<G, K> -> bool, faulty: bool, ws: seq<World<D, G, K>>, es: seq<Event<D>>) {
    && |ws| == |es| + 1
    && forall i :: 0 <= i < |es| ==> Step(view, accept, faulty, ws[i], es[i], ws[i + 1])
  }

  /** Whole-run soundness, exactly: with every caller keeping its contract, HEAD, the
      working document and the memo are sound at every point of a run, whatever
      fails, if and only if no step of it poisons. */
  lemma {:induction false} RunSoundIff<D(!new), G(!new), K(!new)>(
      view: D -> View<G, K>, accept: Key<G, K> -> bool, faulty: bool, ws: seq<World<D, G, K>>, es: seq<Event<D>>,
      n: nat)
    requires Run(view, accept, faulty, ws, es) && Sound(view, accept, ws[0])
    requires forall i :: 0 <= i < |es| ==> Contract(view, accept, ws[i], es[i])
    requires n < |ws|
    ensures (forall i :: 0 <= i <= n ==> Sound(view, accept, ws[i])) <==>
            forall i :: 0 <= i < n ==> !Poisons(view, accept, ws[i], es[i], ws[i + 1])
  {
    hide Sound, Contract, Step, Poisons;
    if n > 0 {
      RunSoundIff(view, accept, faulty, ws, es, n - 1);
      if Sound(view, accept, ws[n - 1]) {
        assert Step(view, accept, faulty, ws[n - 1], es[n - 1], ws[n]);
        assert Contract(view, accept, ws[n - 1], es[n - 1]);
        StepSoundIff(view, accept, faulty, ws[n - 1], es[n - 1], ws[n]);
      }
    }
  }

  function Committed<D, G, K>(w: World<D, G, K>, doc: D): World<D, G, K> {
    World(Doc(doc, true), w.log + [Commit(Doc(doc, true), SourceOf(w.log), true)], w.memo)
  }

  /** Without the shield the contract is not enough: for every clean world and every
      unshielded edit of its document some evaluator - one that rejects a single
      build - accepts the transaction, faultlessly and with the document valid, and
      HEAD is invalid after it. */
  lemma UnshieldedEditBreaksHead<D(!new), G(!new), K(!new)>(
      view: D -> View<G, K>, w: World<D, G, K>, edit: D -> Result<D>, next: D, hosts: seq<string>)
    returns (accept: Key<G, K> -> bool, tag: string)
    requires w.work.Doc? && w.work == HeadFile(w.log) && w.memo == [] && edit(w.work.doc) == Ok(next) &&
             w.work != Doc(next, true)
    requires !Shielded(SourceOf(w.log), view(w.work.doc), SourceOf(w.log), view(next), hosts)
    ensures tag in view(next).built &&
            !Vouched(SourceOf(w.log), view(w.work.doc), SourceOf(w.log), view(next), hosts, tag)
    ensures forall k :: accept(k) <==> k != KeyOf(SourceOf(w.log), view(next), tag)
    ensures Sound(view, accept, w) && !Sound(view, accept, Committed(w, next))
    ensures Step(view, accept, false, w, Tx(edit, hosts, EvalGate, Landed(next)), Committed(w, next))
  {
    var source, doc := SourceOf(w.log), w.work.doc;
    tag :| tag in view(next).built && !Vouched(source, view(doc), source, view(next), hosts, tag);
    accept := Unvouched(source, view(doc), source, view(next), hosts, tag);
    assert SourceOf(Committed(w, next).log) == source;
  }

  // ---- Where the run theorem stops ------------------------------------

  /** The working file is what HEAD holds. */
  ghost predicate Clean<D, G, K>(w: World<D, G, K>) {
    w.work == HeadFile(w.log)
  }

  /** Without faults the tree is clean after every step, so no rollback is ever
      lost and an accepted write is in HEAD when it is reported. */
  lemma FaultFreeStaysClean<D(!new), G(!new), K(!new)>(
      view: D -> View<G, K>, accept: Key<G, K> -> bool, w: World<D, G, K>, e: Event<D>, w': World<D, G, K>)
    requires Step(view, accept, false, w, e, w') && Clean(w)
    ensures Clean(w') && (e.Tx? ==> !e.result.Dirty?)
    ensures e.Tx? && (e.result.NoOp? || e.result.Landed?) ==> HeadFile(w'.log) == Doc(e.result.doc, true)
  {
  }

  /** A success is in HEAD exactly when it committed or found the tree clean. */
  lemma SuccessIsCommittedIff<D(!new), G(!new), K(!new)>(
      view: D -> View<G, K>, accept: Key<G, K> -> bool, faulty: bool, w: World<D, G, K>, e: Event<D>,
          w': World<D, G, K>)
    requires Step(view, accept, faulty, w, e, w') && e.Tx? && (e.result.NoOp? || e.result.Landed?)
    ensures HeadFile(w'.log) == Doc(e.result.doc, true) <==> (e.result.Landed? || Clean(w))
  {
  }

  /** The other half, without a remote: after a failed commit, repeating the same
      idempotent edit is a no-op reported as success while HEAD never gets it. */
  lemma RetryAfterFailedCommitLosesTheEdit<D(!new), G(!new), K(!new)>(
      view: D -> View<G, K>, accept: Key<G, K> -> bool, edit: D -> Result<D>, hosts: seq<string>, kind: GateKind,
      w: World<D, G, K>, failed: World<D, G, K>, result: TxResult<D>, after: World<D, G, K>)
    requires Step(view, accept, true, w, Tx(edit, hosts, kind, result), failed) && result.CommitFailed?
    requires edit(result.doc) == Ok(result.doc)
    ensures Step(view, accept, true, failed, Tx(edit, hosts, kind, NoOp(result.doc)), failed)
    ensures failed.log == w.log
    ensures HeadFile(w.log) != Doc(result.doc, true) ==> HeadFile(failed.log) != Doc(result.doc, true)
    ensures Step(view, accept, false, failed, Tx(edit, hosts, kind, NoOp(result.doc)), after) ==> after.log == w.log
  {
  }

  /** Three documents of two devices: document 1 gives device "a" the shape 1,
      document 2 is document 1 with an edit of device "b". */
  function TwoDevices(d: nat): View<int, int> {
    View(0, map["a" := if d == 0 then 0 else 1, "b" := if d == 2 then 2 else 0])
  }

  predicate RejectsOne(k: Key<int, int>) {
    k.shape != 1
  }

  const LOG_ZERO: seq<Commit<nat>> := [Commit(Doc(0, true), "s", true)]

  function BreakA(d: nat): Result<nat> {
    Ok(1)
  }

  function EditB(d: nat): Result<nat> {
    Ok(2)
  }

  lemma RejectedDocumentStays(w0: World<nat, int, int>, w1: World<nat, int, int>)
    requires w0 == World(Doc(0, true), LOG_ZERO, []) && w1 == World(Doc(1, true), LOG_ZERO, [])
    ensures var e := Tx(BreakA, ["a"], EvalGate, Dirty);
            Sound(TwoDevices, RejectsOne, w0) && Contract(TwoDevices, RejectsOne, w0, e) &&
                Step(TwoDevices, RejectsOne, true, w0, e, w1)
  {
    TwoDevicesCover();
    hide Covers, Shielded, Vouched;
    CoversShields("s", TwoDevices(0), TwoDevices(1), ["a"]);
  }

  lemma TwoDevicesCover()
    ensures Covers(TwoDevices(0), TwoDevices(1), ["a"]) && Covers(TwoDevices(1), TwoDevices(2), ["b"])
  {
  }

  lemma NextWriteCommitsIt(w1: World<nat, int, int>, w2: World<nat, int, int>)
    requires w1 == World(Doc(1, true), LOG_ZERO, [])
    requires w2 == World(Doc(2, true), LOG_ZERO + [Commit(Doc(2, true), "s", true)], [])
    ensures var e := Tx(EditB, ["b"], EvalGate, Landed(2));
            Contract(TwoDevices, RejectsOne, w1, e) && Step(TwoDevices, RejectsOne, true, w1, e, w2) &&
                !ValidDoc(TwoDevices, RejectsOne, SourceOf(w2.log), HeadFile(w2.log))
  {
    TwoDevicesCover();
    hide Covers, Shielded, Vouched;
    CoversShields("s", TwoDevices(1), TwoDevices(2), ["b"]);
    assert GateDecision(RejectsOne, "s", TwoDevices(2), ["b"]) by {
      assert "b" in ["b"] && "b" in TwoDevices(2).built;
    }
    assert "a" in TwoDevices(2).built && !HostPasses(RejectsOne, "s", TwoDevices(2), "a");
  }

  /** What the next write makes of it: an accepted edit with a bounded radius that
      covers it leaves a valid document exactly when every device that failed before
      is one of its hosts or is no longer built. */
  lemma FailuresOutsideTheRadiusStay<G(!new), K(!new)>(accept: Key<G, K> -> bool, source: string, base: View<G, K>,
      v: View<G, K>, hosts: seq<string>)
    requires hosts != [] && Covers(base, v, hosts) && GateDecision(accept, source, v, hosts)
    ensures AllPass(accept, source, v) <==>
            forall tag :: tag in base.built && !HostPasses(accept, source, base, tag) ==>
                tag in hosts || tag !in v.built
  {
    forall tag | tag in v.built && tag !in hosts
      ensures HostPasses(accept, source, v, tag) <==> HostPasses(accept, source, base, tag)
    {
      assert KeyOf(source, base, tag) == KeyOf(source, v, tag);
    }
    assert !SomeActive(v, hosts) ==> forall tag :: tag in v.built ==> tag !in hosts;
  }

  /** So from every working document with a failing device, the next write that is
      covered, accepted and does not name that device commits it, faultlessly and with
      its contract kept. */
  lemma NextWriteCommitsTheFailure<D(!new), G(!new), K(!new)>(
      view: D -> View<G, K>, accept: Key<G, K> -> bool, w: World<D, G, K>, edit: D -> Result<D>, next: D,
      hosts: seq<string>, tag: string)
    requires w.work.Doc? && edit(w.work.doc) == Ok(next) && w.work != Doc(next, true)
    requires hosts != [] && Covers(view(w.work.doc), view(next), hosts)
    requires GateDecision(accept, SourceOf(w.log), view(next), hosts)
    requires tag in view(w.work.doc).built && !HostPasses(accept, SourceOf(w.log), view(w.work.doc), tag)
    requires tag in view(next).built && tag !in hosts
    ensures var e := Tx(edit, hosts, EvalGate, Landed(next));
            Step(view, accept, false, w, e, Committed(w, next)) && Contract(view, accept, w, e) &&
            !ValidDoc(view, accept, SourceOf(Committed(w, next).log), HeadFile(Committed(w, next).log))
  {
    CoversShields(SourceOf(w.log), view(w.work.doc), view(next), hosts);
    FailuresOutsideTheRadiusStay(accept, SourceOf(w.log), view(w.work.doc), view(next), hosts);
    assert SourceOf(Committed(w, next).log) == SourceOf(w.log);
  }

  /** Both halves in one run: the rejected document becomes the base of the next
      write, whose narrower radius never looks at the rejected host. */
  lemma LostRollbackPoisonsTheNextWrite() returns (ws: seq<World<nat, int, int>>, es: seq<Event<nat>>)
    ensures Run(TwoDevices, RejectsOne, true, ws, es) && |es| == 2 && es[0].Tx? && es[0].result.Dirty?
    ensures Contract(TwoDevices, RejectsOne, ws[0], es[0]) && Contract(TwoDevices, RejectsOne, ws[1], es[1])
    ensures Sound(TwoDevices, RejectsOne, ws[0])
    ensures !ValidDoc(TwoDevices, RejectsOne, SourceOf(ws[2].log), HeadFile(ws[2].log))
  {
    var w0, w1 := World(Doc(0, true), LOG_ZERO, []), World(Doc(1, true), LOG_ZERO, []);
    var w2 := World(Doc(2, true), LOG_ZERO + [Commit(Doc(2, true), "s", true)], []);
    RejectedDocumentStays(w0, w1);
    NextWriteCommitsIt(w1, w2);
    hide Step, Sound, Contract;
    ws, es := [w0, w1, w2], [Tx(BreakA, ["a"], EvalGate, Dirty), Tx(EditB, ["b"], EvalGate, Landed(2))];
  }
}
