// What one validation evaluates (gate.go, gate_jobs.go, chunk.go): host names
// expanded from variants, batches cut from them, and the two ways of reading a
// verdict back - a pool of batch evaluations, or nix-eval-jobs' result lines.
module EvalGate {
  import opened Wrappers
  import opened EvalPool
  import Text

  // ---- Batches --------------------------------------------------------

  function Flatten(batches: seq<seq<string>>): seq<string> {
    if batches == [] then [] else Flatten(batches[..|batches| - 1]) + batches[|batches| - 1]
  }

  /** chunk: no size means one batch. */
  method Chunk(xs: seq<string>, size: int) returns (out: seq<seq<string>>)
    ensures Flatten(out) == xs && out != []
    ensures size <= 0 || |xs| <= size ==> out == [xs]
    ensures 0 < size < |xs| ==>
              |out| == (|xs| + size - 1) / size &&
              (forall i :: 0 <= i < |out| - 1 ==> |out[i]| == size) && 0 < |out[|out| - 1]| <= size
  {
    if size <= 0 || |xs| <= size {
      assert Flatten([xs]) == Flatten([]) + xs;
      return [xs];
    }
    out := [];
    var start := 0;
    while start < |xs|
      invariant 0 <= start
      invariant start < |xs| ==> start == size * |out| && Flatten(out) == xs[..start]
      invariant start >= |xs| ==>
                Flatten(out) == xs && out != [] && size * (|out| - 1) < |xs| <= size * |out| &&
                    0 < |out[|out| - 1]| <= size
      invariant forall i :: 0 <= i < |out| && (start < |xs| || i < |out| - 1) ==> |out[i]| == size
      decreases |xs| - start
    {
      var end := start + size;
      if end > |xs| {
        end := |xs|;
      }
      FlattenAppend(out, xs[start..end]);
      assert xs[..start] + xs[start..end] == xs[..end];
      assert xs[..|xs|] == xs;
      assert size * (|out| + 1) == size * |out| + size;
      out := out + [xs[start..end]];
      start := start + size;
    }
    BatchCount(|xs|, size, |out|);
  }

  lemma FlattenAppend(out: seq<seq<string>>, b: seq<string>)
    ensures Flatten(out + [b]) == Flatten(out) + b
  {
    assert (out + [b])[..|out|] == out;
  }

  lemma BatchCount(n: nat, size: nat, count: nat)
    requires size > 0 && count > 0 && size * (count - 1) < n <= size * count
    ensures (n + size - 1) / size == count
  {
    assert size * (count - 1) == size * count - size;
    Quotient(n + size - 1, size, count);
  }

  lemma Quotient(x: nat, d: nat, q: nat)
    requires d > 0 && d * q <= x < d * q + d
    ensures x / d == q
  {
    var p := x / d;
    assert d * p <= x < d * p + d;
    if p < q {
      MulStep(d, p, q);
    } else if q < p {
      MulStep(d, q, p);
    }
  }

  lemma MulStep(d: nat, a: nat, b: nat)
    requires a < b
    ensures d * a + d <= d * b
  {
    assert d * b == d * (a + 1) + d * (b - a - 1);
  }

  predicate BatchPasses(passes: string -> bool, batch: seq<string>) {
    forall i :: 0 <= i < |batch| ==> passes(batch[i])
  }

  lemma PassesAppend(passes: string -> bool, a: seq<string>, b: seq<string>)
    ensures BatchPasses(passes, a + b) <==> BatchPasses(passes, a) && BatchPasses(passes, b)
  {
    if BatchPasses(passes, a + b) {
      forall i | 0 <= i < |a| ensures passes(a[i]) {
        assert (a + b)[i] == a[i];
      }
      forall i | 0 <= i < |b| ensures passes(b[i]) {
        assert (a + b)[|a| + i] == b[i];
      }
    }
  }

  ghost predicate AllBatchesPass(passes: string -> bool, batches: seq<seq<string>>) {
    forall b :: 0 <= b < |batches| ==> BatchPasses(passes, batches[b])
  }

  lemma {:induction false} BatchesDecide(passes: string -> bool, batches: seq<seq<string>>)
    ensures AllBatchesPass(passes, batches) <==> BatchPasses(passes, Flatten(batches))
  {
    if batches != [] {
      var n := |batches| - 1;
      BatchesDecide(passes, batches[..n]);
      PassesAppend(passes, Flatten(batches[..n]), batches[n]);
      assert AllBatchesPass(passes, batches) <==>
             AllBatchesPass(passes, batches[..n]) && BatchPasses(passes, batches[n]);
    }
  }

  /** One worker, or a single batch: in order, stopping at the first rejection. */
  method EvalInOrder(batches: seq<seq<string>>, passes: string -> bool) returns (ok: bool)
    ensures ok <==> BatchPasses(passes, Flatten(batches))
  {
    BatchesDecide(passes, batches);
    for b := 0 to |batches|
      invariant forall c :: 0 <= c < b ==> BatchPasses(passes, batches[c])
    {
      if !BatchPasses(passes, batches[b]) {
        return false;
      }
    }
    return true;
  }

  /** A batch is rejected when one of its hosts is. */
  function Rejects(passes: string -> bool, batches: seq<seq<string>>): nat -> bool {
    (b: nat) => b < |batches| && !BatchPasses(passes, batches[b])
  }

  /** The pool over the batches of a host list, whatever the interleaving, the
      number of workers and the batch size: nil exactly when every host passes. */
  lemma PoolDecidesHosts(passes: string -> bool, names: seq<string>, batches: seq<seq<string>>, workers: nat,
      ps: seq<Pool>, es: seq<Event>)
    requires Flatten(batches) == names
    requires Run(Rejects(passes, batches), ps, es) && ps[0] == Start(|batches|, workers)
    requires var last := ps[|ps| - 1]; Returned(last) && !last.callerEnded
    ensures ResultOf(ps[|ps| - 1]).Nil? <==> BatchPasses(passes, names)
  {
    PoolDecides(Rejects(passes, batches), |batches|, workers, ps, es);
    NoRejectIsAllPass(passes, batches);
  }

  lemma NoRejectIsAllPass(passes: string -> bool, batches: seq<seq<string>>)
    ensures (forall b: nat :: b < |batches| ==> !Rejects(passes, batches)(b)) <==> BatchPasses(passes, Flatten(batches))
  {
    BatchesDecide(passes, batches);
    if forall b: nat :: b < |batches| ==> !Rejects(passes, batches)(b) {
      forall b | 0 <= b < |batches| ensures BatchPasses(passes, batches[b]) {
        assert !Rejects(passes, batches)(b);
      }
    }
  }

  // ---- Host names -----------------------------------------------------

  /** hostRe. */
  predicate ValidHost(s: string) {
    Text.Slug(s)
  }

  function WithVariants(h: string, variants: seq<string>): seq<string> {
    seq(|variants|, i requires 0 <= i < |variants| => h + variants[i])
  }

  function Product(hosts: seq<string>, variants: seq<string>): seq<string> {
    if hosts == [] then []
    else Product(hosts[..|hosts| - 1], variants) + WithVariants(hosts[|hosts| - 1], variants)
  }

  /** No variants configured means the tag itself. */
  function VariantsOf(hostVariants: seq<string>): seq<string> {
    if hostVariants == [] then [""] else hostVariants
  }

  ghost predicate AllValid(names: seq<string>) {
    forall i :: 0 <= i < |names| ==> ValidHost(names[i])
  }

  method ExpandHost(host: string, variants: seq<string>) returns (r: Result<seq<string>>)
    ensures r.Ok? <==> AllValid(WithVariants(host, variants))
    ensures r.Ok? ==> r.value == WithVariants(host, variants)
  {
    ghost var row := WithVariants(host, variants);
    var out := [];
    for j := 0 to |variants|
      invariant out == row[..j] && AllValid(out)
    {
      var name := host + variants[j];
      assert row[j] == name;
      if !ValidHost(name) {
        return Err("invalid host");
      }
      out := out + [name];
    }
    return Ok(out);
  }

  lemma InvalidRow(hosts: seq<string>, variants: seq<string>, i: nat)
    requires i < |hosts| && !AllValid(WithVariants(hosts[i], variants))
    ensures !AllValid(Product(hosts, variants))
  {
    ProductPrefix(hosts, variants, i + 1);
    var before, row := Product(hosts[..i], variants), WithVariants(hosts[i], variants);
    assert hosts[..i + 1][..i] == hosts[..i];
    assert Product(hosts[..i + 1], variants) == before + row;
    var j :| 0 <= j < |row| && !ValidHost(row[j]);
    assert (before + row)[|before| + j] == row[j];
    assert Product(hosts, variants)[|before| + j] == row[j];
  }

  /** expandVariants: every host with every variant, in order; one malformed
      name refuses the list. */
  method ExpandVariants(hosts: seq<string>, hostVariants: seq<string>) returns (r: Result<seq<string>>)
    ensures r.Ok? <==> AllValid(Product(hosts, VariantsOf(hostVariants)))
    ensures r.Ok? ==> r.value == Product(hosts, VariantsOf(hostVariants))
  {
    var variants := hostVariants;
    if variants == [] {
      variants := [""];
    }
    var out := [];
    for i := 0 to |hosts|
      invariant out == Product(hosts[..i], variants)
      invariant AllValid(out)
    {
      assert hosts[..i + 1][..i] == hosts[..i];
      var row := ExpandHost(hosts[i], variants);
      if row.Err? {
        InvalidRow(hosts, variants, i);
        return Err(row.error);
      }
      out := out + row.value;
    }
    assert hosts[..|hosts|] == hosts;
    return Ok(out);
  }

  lemma {:induction false} ProductPrefix(hosts: seq<string>, variants: seq<string>, n: nat)
    requires n <= |hosts|
    ensures Product(hosts[..n], variants) <= Product(hosts, variants)
    decreases |hosts| - n
  {
    if n == |hosts| {
      assert hosts[..n] == hosts;
    } else {
      ProductPrefix(hosts, variants, n + 1);
      assert hosts[..n + 1][..n] == hosts[..n];
    }
  }

  // ---- nix-eval-jobs --------------------------------------------------

  /** A line of the evaluator's output: noise, or one attribute's result. */
  datatype Line = Noise | Outcome(attr: string, error: string)

  const NO_RESULT := "the evaluator produced no result for this host"

  ghost predicate Reported(lines: seq<Line>, n: string) {
    exists i :: 0 <= i < |lines| && lines[i].Outcome? && lines[i].attr == n
  }

  ghost predicate Blamed(lines: seq<Line>, n: string) {
    exists i :: 0 <= i < |lines| && lines[i].Outcome? && lines[i].attr == n && lines[i].error != ""
  }

  /** parseJobLines: every requested host is accounted for; a missing line is a
      failure of that host. Unparsable lines arrive as noise. */
  method ParseJobLines(lines: seq<Line>, scanError: bool, want: seq<string>) returns (r: Result<map<string, string>>)
    ensures r.Ok? <==> !scanError && exists n :: Reported(lines, n)
    ensures r.Ok? ==> forall n :: n in r.value <==> Blamed(lines, n) || (n in want && !Reported(lines, n))
  {
    var failed: map<string, string> := map[];
    var seen: set<string> := {};
    for i := 0 to |lines|
      invariant forall n :: n in seen <==> Reported(lines[..i], n)
      invariant forall n :: n in failed <==> Blamed(lines[..i], n)
    {
      LineEffect(lines, i);
      match lines[i]
      case Noise =>
      case Outcome(attr, error) =>
        seen := seen + {attr};
        if error != "" {
          failed := failed[attr := error];
        }
    }
    assert lines[..|lines|] == lines;
    if scanError {
      return Err("read evaluation output");
    }
    if seen == {} {
      return Err("the evaluator produced no results");
    }
    for i := 0 to |want|
      invariant forall n :: n in failed <==> Blamed(lines, n) || (n in want[..i] && n !in seen)
    {
      assert want[..i + 1] == want[..i] + [want[i]];
      if want[i] !in seen {
        failed := failed[want[i] := NO_RESULT];
      }
    }
    assert want[..|want|] == want;
    return Ok(failed);
  }

  lemma LineEffect(lines: seq<Line>, i: nat)
    requires i < |lines|
    ensures forall n :: Reported(lines[..i + 1], n) <==>
            Reported(lines[..i], n) || (lines[i].Outcome? && lines[i].attr == n)
    ensures forall n :: Blamed(lines[..i + 1], n) <==>
              Blamed(lines[..i], n) || (lines[i].Outcome? && lines[i].attr == n && lines[i].error != "")
  {
    var a, b := lines[..i], lines[..i + 1];
    assert b == a + [lines[i]];
    forall n ensures Reported(b, n) <==> Reported(a, n) || (lines[i].Outcome? && lines[i].attr == n) {
      if Reported(a, n) {
        var k :| 0 <= k < |a| && a[k].Outcome? && a[k].attr == n;
        assert b[k] == a[k];
      }
      if lines[i].Outcome? && lines[i].attr == n {
        assert b[i] == lines[i];
      }
    }
    forall n ensures Blamed(b, n) <==>
        Blamed(a, n) || (lines[i].Outcome? && lines[i].attr == n && lines[i].error != "") {
      if Blamed(a, n) {
        var k :| 0 <= k < |a| && a[k].Outcome? && a[k].attr == n && a[k].error != "";
        assert b[k] == a[k];
      }
      if lines[i].Outcome? && lines[i].attr == n && lines[i].error != "" {
        assert b[i] == lines[i];
      }
    }
  }

  /** evalWithJobs once the process has run; exitOk is its exit status. */
  method EvalWithJobs(lines: seq<Line>, scanError: bool, exitOk: bool, names: seq<string>) returns (ok: bool)
    ensures ok <==> JobsAccept(lines, scanError, exitOk, names)
  {
    var parsed := ParseJobLines(lines, scanError, names);
    if parsed.Err? {
      return false;
    }
    if parsed.value != map[] {
      assert exists n :: n in parsed.value;
      return false;
    }
    return exitOk;
  }

  ghost predicate JobsAccept(lines: seq<Line>, scanError: bool, exitOk: bool, names: seq<string>) {
    && !scanError && exitOk
    && (exists n :: Reported(lines, n))
    && (forall n :: !Blamed(lines, n))
    && (forall i :: 0 <= i < |names| ==> Reported(lines, names[i]))
  }

  /** The evaluator tells the truth about what it reports. */
  ghost predicate Truthful(lines: seq<Line>, names: seq<string>, passes: string -> bool) {
    && (forall n :: Reported(lines, n) ==> n in names)
    && (forall n :: Reported(lines, n) ==> (Blamed(lines, n) <==> !passes(n)))
  }

  /** The two paths decide alike: with truthful lines, a clean scan and an exit
      status that is good when nothing failed, the jobs path accepts exactly when
      the batch path would and no host's line is missing. */
  lemma PathsAgree(lines: seq<Line>, scanError: bool, exitOk: bool, names: seq<string>, passes: string -> bool)
    requires names != [] && Truthful(lines, names, passes) && !scanError
    requires (forall n :: !Blamed(lines, n)) && (forall i :: 0 <= i < |names| ==> Reported(lines, names[i])) ==> exitOk
    ensures JobsAccept(lines, scanError, exitOk, names) <==>
            BatchPasses(passes, names) && forall i :: 0 <= i < |names| ==> Reported(lines, names[i])
  {
    if JobsAccept(lines, scanError, exitOk, names) {
      forall i | 0 <= i < |names| ensures passes(names[i]) {
        assert Reported(lines, names[i]);
      }
    }
    if BatchPasses(passes, names) && forall i :: 0 <= i < |names| ==> Reported(lines, names[i]) {
      assert Reported(lines, names[0]);
      forall n ensures !Blamed(lines, n) {
        if Blamed(lines, n) {
          BlamedIsReported(lines, n);
        }
      }
    }
  }

  lemma BlamedIsReported(lines: seq<Line>, n: string)
    requires Blamed(lines, n)
    ensures Reported(lines, n)
  {
  }

  // ---- Validate -------------------------------------------------------

  /** How the gate is set up: host variants, nix-eval-jobs or the chunked path. */
  datatype Setup = Setup(hostVariants: seq<string>, jobs: bool)

  /** resolveHosts: the list with its variants, unless one name is malformed, or what
      nix says there is, if it says anything. */
  ghost function Resolved(setup: Setup, hosts: seq<string>, discovered: Option<seq<string>>): Option<seq<string>> {
    if hosts == [] then discovered
    else if AllValid(Product(hosts, VariantsOf(setup.hostVariants))) then
      Some(Product(hosts, VariantsOf(setup.hostVariants)))
    else None
  }

  /** What the evaluation did: hosts that do not resolve, nothing to evaluate, batches
      one after the other, batches in a pool of workers, or nix-eval-jobs with its
      output and status. */
  datatype Evaluation =
    | Unresolved
    | Nothing
    | InOrder(batches: seq<seq<string>>)
    | Pooled(batches: seq<seq<string>>, workers: nat, ps: seq<Pool>, es: seq<Event>)
    | Jobs(lines: seq<Line>, scanError: bool, exitOk: bool)

  /** One complete call of the gate, the caller staying and nix-eval-jobs telling the
      truth: ok is its answer. */
  ghost predicate Evaluates(setup: Setup, resolved: Option<seq<string>>, passes: string -> bool, how: Evaluation,
      ok: bool) {
    match resolved
    case None => how.Unresolved? && !ok
    case Some(names) => EvaluatesNames(setup, names, passes, how, ok)
  }

  ghost predicate EvaluatesNames(setup: Setup, names: seq<string>, passes: string -> bool, how: Evaluation, ok: bool) {
    match how
    case Unresolved => false
    case Nothing => names == [] && ok
    case InOrder(batches) => names != [] && !setup.jobs && Flatten(batches) == names &&
        (ok <==> AllBatchesPass(passes, batches))
    case Pooled(batches, workers, ps, es) =>
      && names != [] && !setup.jobs && Flatten(batches) == names
      && Run(Rejects(passes, batches), ps, es) && ps[0] == Start(|batches|, workers)
      && Returned(ps[|ps| - 1]) && !ps[|ps| - 1].callerEnded && (ok <==> ResultOf(ps[|ps| - 1]).Nil?)
    case Jobs(lines, scanError, exitOk) =>
      && names != [] && setup.jobs && Truthful(lines, names, passes) && !scanError
      && ((forall n :: !Blamed(lines, n)) && AllReported(lines, names) ==> exitOk)
      && (ok <==> JobsAccept(lines, scanError, exitOk, names))
  }

  ghost predicate AllReported(lines: seq<Line>, names: seq<string>) {
    forall i :: 0 <= i < |names| ==> Reported(lines, names[i])
  }

  /** Validate, whichever path it takes: it answers nil exactly when the hosts resolve,
      every name they resolve to passes - every variant of every host listed, or every
      host of the fleet - and, on the jobs path, none of them lost its line. A name
      that is malformed or a discovery that fails is never nil. */
  lemma ValidateDecides(
      setup: Setup, hosts: seq<string>, discovered: Option<seq<string>>, passes: string -> bool, how: Evaluation,
      ok: bool)
    requires Evaluates(setup, Resolved(setup, hosts, discovered), passes, how, ok)
    ensures ok <==>
            var names := Resolved(setup, hosts, discovered);
            names.Some? && BatchPasses(passes, names.value) && (how.Jobs? ==> AllReported(how.lines, names.value))
    ensures ok && hosts == [] ==> discovered.Some?
    ensures ok && hosts != [] ==>
              forall h, v :: h in hosts && (v in setup.hostVariants || (v == "" && setup.hostVariants == [])) ==>
                ValidHost(h + v) && passes(h + v)
  {
    if Resolved(setup, hosts, discovered).None? {
      return;
    }
    var names := Resolved(setup, hosts, discovered).value;
    match how {
      case Unresolved =>
      case Nothing =>
      case InOrder(batches) => BatchesDecide(passes, batches);
      case Pooled(batches, workers, ps, es) => PoolDecidesHosts(passes, names, batches, workers, ps, es);
      case Jobs(lines, scanError, exitOk) => PathsAgree(lines, scanError, exitOk, names, passes);
    }
    if BatchPasses(passes, names) && hosts != [] {
      forall h, v | h in hosts && (v in setup.hostVariants || (v == "" && setup.hostVariants == []))
        ensures ValidHost(h + v) && passes(h + v)
      {
        var i := InProduct(hosts, VariantsOf(setup.hostVariants), h, v);
      }
    }
  }

  /** Every host meets every variant. */
  lemma {:induction false} InProduct(hosts: seq<string>, variants: seq<string>, h: string, v: string) returns (i: nat)
    requires h in hosts && v in variants
    ensures i < |Product(hosts, variants)| && Product(hosts, variants)[i] == h + v
  {
    var n := |hosts| - 1;
    assert hosts == hosts[..n] + [hosts[n]];
    if h == hosts[n] {
      var j :| 0 <= j < |variants| && variants[j] == v;
      i := |Product(hosts[..n], variants)| + j;
      assert WithVariants(h, variants)[j] == h + v;
    } else {
      i := InProduct(hosts[..n], variants, h, v);
    }
  }
}
