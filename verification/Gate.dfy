// What the gate sees of a configuration document, and what its verdict means.
// The evaluation of one host is an arbitrary predicate over the three inputs a
// device builds from: the source tree, the document's globals and its shape.
module Gate {
  import opened Order
  import Sampling

  /** The memo key of verdicts.go, and the argument of one host's evaluation. */
  datatype Key<G, K> = Key(source: string, globals: G, shape: K)

  /** A document as the gate sees it: its globals, and the shape of every active
      device. */
  datatype View<G, K> = View(globals: G, built: map<string, K>)

  function KeyOf<G, K>(source: string, v: View<G, K>, tag: string): Key<G, K>
    requires tag in v.built
  {
    Key(source, v.globals, v.built[tag])
  }

  predicate HostPasses<G, K>(accept: Key<G, K> -> bool, source: string, v: View<G, K>, tag: string) {
    tag in v.built && accept(KeyOf(source, v, tag))
  }

  /** Every active device evaluates. */
  predicate AllPass<G, K>(accept: Key<G, K> -> bool, source: string, v: View<G, K>) {
    forall tag :: tag in v.built ==> HostPasses(accept, source, v, tag)
  }

  /** Every active device named evaluates: what a full gate over the radius
      would have decided host by host. No hosts means the whole fleet. */
  predicate RadiusPasses<G, K>(accept: Key<G, K> -> bool, source: string, v: View<G, K>, hosts: seq<string>) {
    forall tag :: tag in v.built && (hosts == [] || tag in hosts) ==> HostPasses(accept, source, v, tag)
  }

  /** Validate: an empty list evaluates the whole fleet; a named host that does
      not build has no attribute to evaluate and is a rejection. */
  predicate Validates<G, K>(accept: Key<G, K> -> bool, source: string, v: View<G, K>, hosts: seq<string>) {
    if hosts == [] then AllPass(accept, source, v)
    else forall i :: 0 <= i < |hosts| ==> HostPasses(accept, source, v, hosts[i])
  }

  /** Outside the hosts named, the new document builds only devices the old one
      built, from the same shape and the same globals. No hosts: no promise. */
  ghost predicate Covers<G, K>(old_: View<G, K>, new_: View<G, K>, hosts: seq<string>) {
    hosts == [] ||
    forall tag :: tag in new_.built && tag !in hosts ==>
      tag in old_.built && new_.built[tag] == old_.built[tag] && new_.globals == old_.globals
  }

  /** The documented contract of a structural edit: no device's evaluation is
      affected by it, though its globals may be. */
  ghost predicate Harmless<G, K>(accept: Key<G, K> -> bool, source: string, old_: View<G, K>, new_: View<G, K>) {
    forall tag :: tag in new_.built ==>
      tag in old_.built && (HostPasses(accept, source, old_, tag) ==> HostPasses(accept, source, new_, tag))
  }

  /** The sampled host list applyTx puts before the memo. */
  ghost predicate IsSampledRadius<G, K>(v: View<G, K>, hosts: seq<string>, sampled: seq<string>) {
    if hosts == [] then Sampling.IsSample(v.built, v.built.Keys, sampled)
    else if |hosts| == 1 then sampled == hosts
    else Sampling.IsSample(v.built, Elements(hosts), sampled)
  }

  // ---- Sampling and memo against the full gate ------------------------

  /** A memoised host is skipped only on a recorded verdict for its own key. */
  ghost predicate Known<G, K>(memo: set<Key<G, K>>, source: string, v: View<G, K>, tag: string) {
    tag in v.built && KeyOf(source, v, tag) in memo
  }

  ghost predicate SoundMemo<G(!new), K(!new)>(accept: Key<G, K> -> bool, memo: set<Key<G, K>>) {
    forall k :: k in memo ==> accept(k)
  }

  /** What is left to evaluate: the sampled hosts without a recorded verdict. */
  ghost predicate IsTodo<G, K>(memo: set<Key<G, K>>, source: string, v: View<G, K>, sampled: seq<string>,
      todo: seq<string>) {
    forall tag :: tag in todo <==> tag in sampled && !Known(memo, source, v, tag)
  }

  /** applyTx's decision: skip the gate when a non-empty sample is wholly
      memoised, else ask it about what is left. */
  predicate Admits<G, K>(accept: Key<G, K> -> bool, source: string, v: View<G, K>, sampled: seq<string>,
      todo: seq<string>) {
    (sampled != [] && todo == []) || Validates(accept, source, v, todo)
  }

  ghost predicate SomeActive<G, K>(v: View<G, K>, hosts: seq<string>) {
    exists tag :: tag in hosts && tag in v.built
  }

  lemma SampleDecides<G(!new), K(!new)>(accept: Key<G, K> -> bool, source: string, v: View<G, K>, pool: set<string>,
      sampled: seq<string>)
    requires Sampling.IsSample(v.built, pool, sampled)
    ensures (forall tag :: tag in sampled ==> HostPasses(accept, source, v, tag)) <==>
            (forall tag :: tag in pool && tag in v.built ==> HostPasses(accept, source, v, tag))
    ensures sampled == [] <==> forall tag :: tag in pool ==> tag !in v.built
  {
    NoElements(sampled);
    assert forall x :: x in sampled <==> x in Elements(sampled);
    forall tag | tag in pool && tag in v.built
      ensures exists rep :: rep in sampled && SameShape(v, rep, tag)
    {
      var rep := Sampling.EveryShapeSampled(v.built, pool, tag);
      assert rep in sampled && SameShape(v, rep, tag);
    }
  }

  predicate SameShape<G, K(==)>(v: View<G, K>, a: string, b: string) {
    a in v.built && b in v.built && v.built[a] == v.built[b]
  }

  lemma TodoDecides<G(!new), K(!new)>(accept: Key<G, K> -> bool, memo: set<Key<G, K>>, source: string, v: View<G, K>,
      sampled: seq<string>, todo: seq<string>)
    requires SoundMemo(accept, memo) && IsTodo(memo, source, v, sampled, todo)
    ensures sampled != [] ==>
              (Admits(accept, source, v, sampled, todo) <==>
                  forall tag :: tag in sampled ==> HostPasses(accept, source, v, tag))
    ensures sampled == [] ==> (Admits(accept, source, v, sampled, todo) <==> AllPass(accept, source, v))
  {
    NoElements(sampled);
    NoElements(todo);
    if sampled == [] {
    } else if todo == [] {
      forall tag | tag in sampled ensures HostPasses(accept, source, v, tag) {
        assert tag !in todo;
      }
    } else {
      forall tag | tag in sampled && Known(memo, source, v, tag) ensures HostPasses(accept, source, v, tag) {
      }
      if forall tag :: tag in sampled ==> HostPasses(accept, source, v, tag) {
        forall i | 0 <= i < |todo| ensures HostPasses(accept, source, v, todo[i]) {
          assert todo[i] in todo;
        }
      }
    }
  }

  /** Refinement, case by case, for any sound memo. A radius that is unbounded or
      names an active device is decided exactly as evaluating each of its active
      hosts alone would decide it. A radius naming no active device is not: one
      such host is always refused, several turn into the whole fleet. */
  lemma MemoAndSamplingRefineTheFullGate<G(!new), K(!new)>(
      accept: Key<G, K> -> bool, memo: set<Key<G, K>>, source: string, v: View<G, K>,
      hosts: seq<string>, sampled: seq<string>, todo: seq<string>)
    requires SoundMemo(accept, memo)
    requires IsSampledRadius(v, hosts, sampled) && IsTodo(memo, source, v, sampled, todo)
    ensures hosts == [] || SomeActive(v, hosts) ==>
              (Admits(accept, source, v, sampled, todo) <==> RadiusPasses(accept, source, v, hosts))
    ensures hosts != [] && !SomeActive(v, hosts) ==>
              (Admits(accept, source, v, sampled, todo) <==> |hosts| > 1 && AllPass(accept, source, v))
  {
    TodoDecides(accept, memo, source, v, sampled, todo);
    if hosts == [] {
      SampleDecides(accept, source, v, v.built.Keys, sampled);
    } else if |hosts| == 1 {
      assert hosts[0] in sampled;
      assert forall tag :: tag in hosts ==> tag == hosts[0];
    } else {
      SampleDecides(accept, source, v, Elements(hosts), sampled);
      assert forall tag :: tag in Elements(hosts) <==> tag in hosts;
    }
  }

  /** The decision agrees with the host-by-host one exactly when the radius is
      unbounded, names an active device, or names several hosts over a fleet that
      passes as a whole. */
  lemma RefinementCondition<G(!new), K(!new)>(
      accept: Key<G, K> -> bool, memo: set<Key<G, K>>, source: string, v: View<G, K>,
      hosts: seq<string>, sampled: seq<string>, todo: seq<string>)
    requires SoundMemo(accept, memo)
    requires IsSampledRadius(v, hosts, sampled) && IsTodo(memo, source, v, sampled, todo)
    ensures (Admits(accept, source, v, sampled, todo) <==> RadiusPasses(accept, source, v, hosts)) <==>
            (hosts == [] || SomeActive(v, hosts) || (|hosts| > 1 && AllPass(accept, source, v)))
  {
    MemoAndSamplingRefineTheFullGate(accept, memo, source, v, hosts, sampled, todo);
  }

  /** The gate over a sample agrees with evaluating the radius, for this evaluator. */
  ghost predicate AgreesOn<G, K>(accept: Key<G, K> -> bool, source: string, v: View<G, K>, hosts: seq<string>,
      sampled: seq<string>) {
    Validates(accept, source, v, sampled) <==> RadiusPasses(accept, source, v, hosts)
  }

  lemma AgreesExactlyWhen<G(!new), K(!new)>(accept: Key<G, K> -> bool, source: string, v: View<G, K>,
      hosts: seq<string>, sampled: seq<string>)
    requires IsSampledRadius(v, hosts, sampled)
    ensures AgreesOn(accept, source, v, hosts, sampled) <==>
            hosts == [] || SomeActive(v, hosts) || (|hosts| > 1 && AllPass(accept, source, v))
  {
    assert IsTodo({}, source, v, sampled, sampled);
    RefinementCondition(accept, {}, source, v, hosts, sampled, sampled);
  }

  /** The caller's guard: the sampled gate decides as the radius would under every
      evaluator exactly when the radius is unbounded or names an active device -
      or names several hosts of a fleet that builds nothing at all. */
  lemma GuardIsExact<G(!new), K(!new)>(source: string, v: View<G, K>, hosts: seq<string>, sampled: seq<string>)
    requires IsSampledRadius(v, hosts, sampled)
    ensures (forall accept: Key<G, K> -> bool :: AgreesOn(accept, source, v, hosts, sampled)) <==>
            hosts == [] || SomeActive(v, hosts) || (|hosts| > 1 && v.built == map[])
  {
    forall accept: Key<G, K> -> bool
      ensures AgreesOn(accept, source, v, hosts, sampled) <==>
              hosts == [] || SomeActive(v, hosts) || (|hosts| > 1 && AllPass(accept, source, v))
    {
      AgreesExactlyWhen(accept, source, v, hosts, sampled);
    }
    var never: Key<G, K> -> bool := k => false;
    if AllPass(never, source, v) {
      assert forall tag :: tag in v.built ==> HostPasses(never, source, v, tag);
      assert v.built == map[];
    } else {
      assert v.built != map[];
      assert AgreesOn(never, source, v, hosts, sampled) <==> hosts == [] || SomeActive(v, hosts);
    }
  }

  /** A radius of one retired host is refused by every evaluator, though none of
      its active hosts could fail. */
  lemma RetiredHostIsRefused<G(!new), K(!new)>(accept: Key<G, K> -> bool, source: string, globals: G, shape: K)
    ensures var v := View(globals, map["active" := shape]);
            IsSampledRadius(v, ["retired"], ["retired"]) && RadiusPasses(accept, source, v, ["retired"]) &&
            !Validates(accept, source, v, ["retired"])
  {
    var v := View(globals, map["active" := shape]);
    assert "retired" !in v.built;
    assert !HostPasses(accept, source, v, ["retired"][0]);
  }

  /** The memo never decides: dropping verdicts (eviction, a restart, another
      replica) or adding sound ones leaves the outcome as it was. */
  lemma MemoChangesNoOutcome<G(!new), K(!new)>(
      accept: Key<G, K> -> bool, memo: set<Key<G, K>>, memo': set<Key<G, K>>, source: string, v: View<G, K>,
      hosts: seq<string>, sampled: seq<string>, todo: seq<string>, todo': seq<string>)
    requires SoundMemo(accept, memo) && SoundMemo(accept, memo')
    requires IsSampledRadius(v, hosts, sampled)
    requires IsTodo(memo, source, v, sampled, todo) && IsTodo(memo', source, v, sampled, todo')
    ensures Admits(accept, source, v, sampled, todo) <==> Admits(accept, source, v, sampled, todo')
  {
    MemoAndSamplingRefineTheFullGate(accept, memo, source, v, hosts, sampled, todo);
    MemoAndSamplingRefineTheFullGate(accept, memo', source, v, hosts, sampled, todo');
  }

  // ---- What an accepted edit proves of the whole document -------------

  /** What the evaluator decides over a radius, whatever the memo holds. */
  predicate GateDecision<G, K>(accept: Key<G, K> -> bool, source: string, v: View<G, K>, hosts: seq<string>) {
    if hosts == [] || (exists tag :: tag in hosts && tag in v.built)
    then RadiusPasses(accept, source, v, hosts)
    else |hosts| > 1 && AllPass(accept, source, v)
  }

  lemma DecisionIsRefinement<G(!new), K(!new)>(
      accept: Key<G, K> -> bool, memo: set<Key<G, K>>, source: string, v: View<G, K>,
      hosts: seq<string>, sampled: seq<string>, todo: seq<string>)
    requires SoundMemo(accept, memo)
    requires IsSampledRadius(v, hosts, sampled) && IsTodo(memo, source, v, sampled, todo)
    ensures Admits(accept, source, v, sampled, todo) <==> GateDecision(accept, source, v, hosts)
  {
    MemoAndSamplingRefineTheFullGate(accept, memo, source, v, hosts, sampled, todo);
  }

  /** The device builds what some device of the base built, or what some host of
      the radius builds now. */
  ghost predicate Vouched<G, K>(source: string, base: View<G, K>, source': string, v: View<G, K>, hosts: seq<string>,
      tag: string)
    requires tag in v.built
  {
    || (exists u :: u in base.built && KeyOf(source, base, u) == KeyOf(source', v, tag))
    || (exists h :: h in hosts && SameShape(v, h, tag))
  }

  /** Nothing an evaluator could reject is left unlooked at: the radius is
      unbounded, has no active host at all, or vouches together with the base for
      every device. */
  ghost predicate Shielded<G, K>(source: string, base: View<G, K>, source': string, v: View<G, K>, hosts: seq<string>) {
    hosts == [] || !SomeActive(v, hosts) || forall tag :: tag in v.built ==>
        Vouched(source, base, source', v, hosts, tag)
  }

  /** From a valid base, an accepted edit leaves a valid document. */
  ghost predicate Protects<G, K>(accept: Key<G, K> -> bool, source: string, base: View<G, K>, source': string,
      v: View<G, K>, hosts: seq<string>) {
    AllPass(accept, source, base) && GateDecision(accept, source', v, hosts) ==> AllPass(accept, source', v)
  }

  lemma ShieldProtects<G(!new), K(!new)>(
      accept: Key<G, K> -> bool, source: string, base: View<G, K>, source': string, v: View<G, K>, hosts: seq<string>)
    requires Shielded(source, base, source', v, hosts)
    ensures Protects(accept, source, base, source', v, hosts)
  {
    if AllPass(accept, source, base) && GateDecision(accept, source', v, hosts) {
      forall tag | tag in v.built ensures HostPasses(accept, source', v, tag) {
        if hosts != [] && SomeActive(v, hosts) {
          if u :| u in base.built && KeyOf(source, base, u) == KeyOf(source', v, tag) {
            assert HostPasses(accept, source, base, u);
          } else {
            var h :| h in hosts && SameShape(v, h, tag);
            assert HostPasses(accept, source', v, h);
          }
        }
      }
    }
  }

  /** An evaluator that rejects exactly one device's build. */
  lemma Unvouched<G(!new), K(!new)>(source: string, base: View<G, K>, source': string, v: View<G, K>,
      hosts: seq<string>, tag: string)
    returns (accept: Key<G, K> -> bool)
    requires hosts != [] && SomeActive(v, hosts) && tag in v.built && !Vouched(source, base, source', v, hosts, tag)
    ensures forall k :: accept(k) <==> k != KeyOf(source', v, tag)
    ensures AllPass(accept, source, base) && GateDecision(accept, source', v, hosts) && !AllPass(accept, source', v)
  {
    var bad := KeyOf(source', v, tag);
    accept := k => k != bad;
    forall u | u in base.built ensures HostPasses(accept, source, base, u) {
      assert KeyOf(source, base, u) != bad;
    }
    forall h | h in v.built && h in hosts ensures HostPasses(accept, source', v, h) {
      assert !SameShape(v, h, tag);
    }
    assert !HostPasses(accept, source', v, tag);
  }

  /** Exactly then: an accepted edit is safe under every evaluator if and only if it
      is shielded, which the two documents and the host list decide. */
  lemma ShieldIsExact<G(!new), K(!new)>(source: string, base: View<G, K>, source': string, v: View<G, K>,
      hosts: seq<string>)
    ensures (forall accept: Key<G, K> -> bool :: Protects(accept, source, base, source', v, hosts)) <==>
            Shielded(source, base, source', v, hosts)
  {
    if Shielded(source, base, source', v, hosts) {
      forall accept: Key<G, K> -> bool ensures Protects(accept, source, base, source', v, hosts) {
        ShieldProtects(accept, source, base, source', v, hosts);
      }
    } else {
      var tag :| tag in v.built && !Vouched(source, base, source', v, hosts, tag);
      var accept := Unvouched(source, base, source', v, hosts, tag);
      assert !Protects(accept, source, base, source', v, hosts);
    }
  }

  /** A radius that covers the edit shields it. */
  lemma CoversShields<G(!new), K(!new)>(source: string, base: View<G, K>, v: View<G, K>, hosts: seq<string>)
    requires Covers(base, v, hosts)
    ensures Shielded(source, base, source, v, hosts)
  {
    if hosts != [] {
      forall tag | tag in v.built ensures Vouched(source, base, source, v, hosts, tag) {
        if tag in hosts {
          assert SameShape(v, tag, tag);
        } else {
          assert KeyOf(source, base, tag) == KeyOf(source, v, tag);
        }
      }
    }
  }

  /** An admitted document evaluates on every active device, given that its base
      did and that the edit is shielded. */
  lemma AdmittedIsValid<G(!new), K(!new)>(
      accept: Key<G, K> -> bool, memo: set<Key<G, K>>, source: string, base: View<G, K>, v: View<G, K>,
      hosts: seq<string>, sampled: seq<string>, todo: seq<string>)
    requires SoundMemo(accept, memo) && AllPass(accept, source, base) && Shielded(source, base, source, v, hosts)
    requires IsSampledRadius(v, hosts, sampled) && IsTodo(memo, source, v, sampled, todo)
    requires Admits(accept, source, v, sampled, todo)
    ensures AllPass(accept, source, v)
  {
    DecisionIsRefinement(accept, memo, source, v, hosts, sampled, todo);
    ShieldProtects(accept, source, base, source, v, hosts);
  }

  /** An edit affects no evaluator's verdict exactly when every device it leaves
      building was building the same before. */
  lemma HarmlessIsExact<G(!new), K(!new)>(source: string, old_: View<G, K>, new_: View<G, K>)
    ensures (forall accept: Key<G, K> -> bool :: Harmless(accept, source, old_, new_)) <==>
            forall tag :: tag in new_.built ==>
                tag in old_.built && KeyOf(source, old_, tag) == KeyOf(source, new_, tag)
  {
    if tag :| tag in new_.built && (tag !in old_.built || KeyOf(source, old_, tag) != KeyOf(source, new_, tag)) {
      var bad := KeyOf(source, new_, tag);
      var accept: Key<G, K> -> bool := k => k != bad;
      assert !HostPasses(accept, source, new_, tag);
      assert tag in old_.built ==> HostPasses(accept, source, old_, tag);
      assert !Harmless(accept, source, old_, new_);
    }
  }
}
