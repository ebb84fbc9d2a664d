/** `run_redline` of `runner.py`: replay every scenario for both roles, probe every trace, decide. */
module Runner {
  import opened Wrappers
  import opened Models
  import opened Digests
  import opened Ordering
  import opened Replay
  import opened Canonical
  import opened Probes
  import opened ProofKernel

  datatype ProbeSpec = ProbeSpec(id: string, check: Check, block: bool)

  /** What the sandboxed worker returned for one package and one scenario. */
  datatype Worker = Signals(values: seq<real>) | Failed(reason: ReasonCode)

  datatype Scenario = Scenario(id: string, bars: seq<Bar>, baseline: Worker, candidate: Worker)

  /** What a package's `config.json` contributes. */
  datatype Package = Package(leverage: Option<real>, rawFloat: bool)

  /** Ways in which a probe does not deliver a result. */
  datatype Fault = Unregistered | Untrusted | Tripwire | Raised

  datatype Identity = Identity(packageHash: Digest, baselineHash: Digest, candidateHash: Digest,
                               adapterId: string, lockHash: Digest)

  /** What `_baseline_chain` makes of the baseline's own receipt. */
  datatype Chain = Chain(status: ChainStatus, error: Option<ReasonCode>)

  datatype Input = Input(
    scenarios: seq<Scenario>, probes: seq<ProbeSpec>,
    baselinePackage: Package, candidatePackage: Package,
    feeBps: Option<real>, slippageBps: Option<real>, fillModel: string,
    identity: Identity, suite: Value, spec: Value, provenance: Value, compiler: Value,
    locked: bool,                   // the package's identity lock loads
    chain: Chain,
    editDiff: Option<Digest>,       // the diff hash of the edit provenance, when one is given
    faults: map<Cell, Fault>)

  /** What the spec and suite validators establish before a run. */
  ghost predicate ValidInput(input: Input) {
    && input.scenarios != [] && (forall s :: s in input.scenarios ==> ValidBars(s.bars))
    && (forall i, j :: 0 <= i < j < |input.scenarios| ==> input.scenarios[i].id != input.scenarios[j].id)
    && (forall i, j :: 0 <= i < j < |input.probes| ==> input.probes[i].id != input.probes[j].id)
    && (forall p :: p in input.probes ==> ValidCheck(p.check))
    && (exists p :: p in input.probes && p.block)
  }

  // ---------- replays ----------

  function ConfigFor(input: Input, package: Package): Config {
    Config(package.leverage, input.feeBps, input.slippageBps, input.fillModel, package.rawFloat)
  }

  function ReplayRole(input: Input, s: Scenario, worker: Worker, package: Package): Result<Trace, ReasonCode>
    requires ValidBars(s.bars)
  {
    match worker
    case Failed(reason) => Err(reason)
    case Signals(values) => ReplayOf(s.id, s.bars, ConfigFor(input, package), values)
  }

  function BaselineTrace(input: Input, s: Scenario): Result<Trace, ReasonCode>
    requires ValidBars(s.bars)
  {
    ReplayRole(input, s, s.baseline, input.baselinePackage)
  }

  function CandidateTrace(input: Input, s: Scenario): Result<Trace, ReasonCode>
    requires ValidBars(s.bars)
  {
    ReplayRole(input, s, s.candidate, input.candidatePackage)
  }

  datatype Pair = Pair(baseline: Trace, candidate: Trace)

  function Replays(input: Input, k: nat): (r: Result<seq<Pair>, ReasonCode>)
    requires k <= |input.scenarios| && forall s :: s in input.scenarios ==> ValidBars(s.bars)
    ensures r.Ok? ==> |r.value| == k
  {
    if k == 0 then Ok([])
    else
      var s := input.scenarios[k - 1];
      match Replays(input, k - 1)
      case Err(e) => Err(e)
      case Ok(before) =>
        match BaselineTrace(input, s)
        case Err(e) => Err(e)
        case Ok(baseline) =>
          match CandidateTrace(input, s)
          case Err(e) => Err(e)
          case Ok(candidate) => Ok(before + [Pair(baseline, candidate)])
  }

  lemma {:induction false} ReplayFailureLasts(input: Input, k: nat, n: nat)
    requires k <= n <= |input.scenarios| && forall s :: s in input.scenarios ==> ValidBars(s.bars)
    requires Replays(input, k).Err?
    ensures Replays(input, n) == Replays(input, k)
    decreases n
  {
    if k < n { ReplayFailureLasts(input, k, n - 1); }
  }

  method ReplayOne(input: Input, s: Scenario, worker: Worker, package: Package) returns (r: Result<Trace, ReasonCode>)
    requires ValidBars(s.bars)
    ensures r == ReplayRole(input, s, worker, package)
  {
    match worker
    case Failed(reason) => r := Err(reason);
    case Signals(values) => r := BuildTrace(s.id, s.bars, ConfigFor(input, package), values);
  }

  method ReplayAll(input: Input) returns (r: Result<seq<Pair>, ReasonCode>)
    requires forall s :: s in input.scenarios ==> ValidBars(s.bars)
    ensures r == Replays(input, |input.scenarios|)
  {
    var pairs: seq<Pair> := [];
    for i := 0 to |input.scenarios|
      invariant Replays(input, i) == Ok(pairs)
    {
      var s := input.scenarios[i];
      var baseline := ReplayOne(input, s, s.baseline, input.baselinePackage);
      if baseline.Err? {
        ReplayFailureLasts(input, i + 1, |input.scenarios|);
        return Err(baseline.error);
      }
      var candidate := ReplayOne(input, s, s.candidate, input.candidatePackage);
      if candidate.Err? {
        ReplayFailureLasts(input, i + 1, |input.scenarios|);
        return Err(candidate.error);
      }
      pairs := pairs + [Pair(baseline.value, candidate.value)];
    }
    r := Ok(pairs);
  }

  // ---------- proofs ----------

  function EncodeResult(r: ProbeResult): Value {
    Rec("probe_result", [Num(match r.outcome case Passed => 0 case Breach => 1 case Errored => 2),
                         EncodeAssertions(r.assertions), if r.evidenceBar.None? then Null
                           else Num(r.evidenceBar.value)])
  }

  function EncodeDecimal(x: real): Value {
    Text(CanonicalNumber(x))
  }

  function EncodePoint(p: Point): Value {
    Rec("point", [Num(p.bar), Text(p.timestamp), EncodeDecimal(p.close), EncodeDecimal(p.nav), EncodeDecimal(p.peak),
                  EncodeDecimal(p.drawdown), EncodeDecimal(p.position)])
  }

  function EncodeTrace(role: string, t: Trace): Value {
    Rec("trace", [Text(t.scenarioId), Text(role), Num(t.bars), Num(t.tradeCount),
                  Arr(seq(|t.points|, i requires 0 <= i < |t.points| => EncodePoint(t.points[i])))])
  }

  function EncodeTraces(pairs: seq<Pair>): Value {
    Arr(seq(|pairs|, i requires 0 <= i < |pairs| =>
      Arr([EncodeTrace("baseline", pairs[i].baseline), EncodeTrace("candidate", pairs[i].candidate)])))
  }

  function SimpleProof(kind: ProofKind, phase: string, inputs: Value, artifact: Value, verdictBearing: bool,
                       assertions: seq<Assertion>, meta: Meta, guards: Value): Proof {
    Proof(ProofId(kind, HashObj(artifact)), phase, kind, verdictBearing, HashObj(inputs), HashObj(artifact), assertions,
          meta, guards)
  }

  function PackageArtifact(id: Identity): Value {
    Rec("package", [Hash(id.packageHash), Hash(id.baselineHash), Hash(id.candidateHash), Text(id.adapterId),
                    Hash(id.lockHash)])
  }

  function OpeningProofs(input: Input): seq<Proof> {
    var id := input.identity;
    [ SimpleProof(PackageCanonical, "import", Rec("roles", []), PackageArtifact(id), true, [], NO_META, Null),
      SimpleProof(EditProvenance, "capture-edit", Rec("pair", [Hash(id.baselineHash), Hash(id.candidateHash)]),
                  input.provenance, false, [], NO_META, Null),
      SimpleProof(SpecCompile, "compile", Rec("compiler", [input.compiler]), input.spec, true, [], NO_META,
                  input.compiler) ]
  }

  function Wellformed(t: Trace): Assertion {
    Assertion("replay_wellformed", "==", IntText(t.bars), IntText(|t.points|), t.scenarioId, LastBar(t.points, 0),
              t.bars == |t.points| && t.bars > 0)
  }

  function IntText(n: nat): string {
    NatText(n)
  }

  function WellformedAll(pairs: seq<Pair>): seq<Assertion> {
    if pairs == [] then []
    else
      var last := pairs[|pairs| - 1];
      WellformedAll(pairs[..|pairs| - 1]) + [Wellformed(last.baseline), Wellformed(last.candidate)]
  }

  function ReplayProofs(input: Input, pairs: seq<Pair>): seq<Proof> {
    var id, wellformed := input.identity, WellformedAll(pairs);
    [ SimpleProof(ReplayRun, "run", Rec("replay", [input.suite, Hash(id.baselineHash), Hash(id.candidateHash)]),
                  EncodeTraces(pairs), true, [], NO_META,
                  Rec("guards", [Text(input.fillModel), Text("structural_next_bar"), Flag(true)])),
      SimpleProof(ReplayWellformed, "run", Rec("trace_hashes", [EncodeTraces(pairs)]),
                  Rec("wellformed", [EncodeAssertions(wellformed)]), true, wellformed, NO_META, Null) ]
  }

  function ProbeArtifact(baseline: ProbeResult, candidate: ProbeResult): Value {
    Rec("probe_pair", [EncodeResult(baseline), EncodeResult(candidate)])
  }

  function ProbeProof(cell: Cell, block: bool, baseline: ProbeResult, candidate: ProbeResult): Proof {
    SimpleProof(Probe, "probe", Rec("cell", [Text(cell.0), Text(cell.1)]), ProbeArtifact(baseline, candidate), block,
                candidate.assertions, Meta(Some(cell.0), Some(cell.1), None, None, Null), Null)
  }

  function Absolute(assertions: seq<Assertion>): seq<Assertion> {
    if assertions == [] then []
    else
      var rest, a := Absolute(assertions[..|assertions| - 1]), assertions[|assertions| - 1];
      if a.metric in {"max_drawdown", "trade_budget"} then rest + [a] else rest
  }

  function ClosingProofs(input: Input, coverage: Manifest, baseline: seq<Assertion>,
                         candidate: seq<Assertion>): seq<Proof> {
    var id := input.identity;
    [ SimpleProof(ProofKind.Coverage, "decide", Rec("suite_spec", [input.suite, input.spec]), EncodeManifest(coverage),
                  true, [], NO_META, Null),
      SimpleProof(BaselineCalibration, "calibrate", Rec("calibration", [Hash(id.baselineHash), input.suite]),
                  Rec("calibration", [Hash(id.baselineHash), input.suite]), true, baseline, NO_META, Null),
      SimpleProof(CandidateAbsolute, "probe", Rec("candidate", [Hash(id.candidateHash)]),
                  Rec("absolute", [EncodeAssertions(Absolute(candidate))]), true, Absolute(candidate), NO_META, Null) ]
  }

  // ---------- the probe loop ----------

  datatype Scan = Scan(proofs: seq<Proof>, cells: seq<Cell>, missing: seq<string>, reject: Option<ReasonCode>,
                       baseline: seq<Assertion>, candidate: seq<Assertion>)

  function ScanCell(input: Input, scenarioId: string, pair: Pair, p: ProbeSpec, scan: Scan): Scan {
    var cell := (scenarioId, p.id);
    var noted := if p.block then scan.(cells := scan.cells + [cell]) else scan;
    var fault := if cell in input.faults then Some(input.faults[cell]) else None;
    if fault == Some(Untrusted) then
      noted.(reject := Some(VerdictPathViolation), missing := noted.missing + [CellText(cell, "untrusted_probe")])
    else if fault == Some(Tripwire) then
      noted.(reject := Some(VerdictPathViolation),
             missing := noted.missing + [CellText(cell, "verdict_path_violation")])
    else
      var base, cand := Evaluate(p.check, pair.baseline), Evaluate(p.check, pair.candidate);
      if fault.Some? || base.None? || cand.None? then noted.(missing := noted.missing + [CellText(cell, "errored")])
      else
        var flagged :=
          if p.block && (base.value.outcome == Errored || cand.value.outcome == Errored)
          then noted.(missing := noted.missing + [CellText(cell, "errored")]) else noted;
        if p.block && !AllHold(base.value.assertions) then
          flagged.(reject := Some(BaselineBreaches), missing := flagged.missing + [CellText(cell, "baseline_breach")])
        else
          Scan(flagged.proofs + [ProbeProof(cell, p.block, base.value, cand.value)], flagged.cells, flagged.missing,
               None,
               flagged.baseline + if p.block then base.value.assertions else [],
               flagged.candidate + if p.block then cand.value.assertions else [])
  }

  function Start(input: Input, pairs: seq<Pair>): Scan {
    Scan(OpeningProofs(input) + ReplayProofs(input, pairs), [], [], None, [], [])
  }

  /** The scan after `i` whole scenarios and `k` probes of the next; it stops at the first rejection. */
  function After(input: Input, pairs: seq<Pair>, i: nat, k: nat): Scan
    requires InTable(input, pairs, i, k)
    decreases i, k
  {
    if k > 0 then
      var before := After(input, pairs, i, k - 1);
      if before.reject.Some? then before
      else ScanCell(input, input.scenarios[i].id, pairs[i], input.probes[k - 1], before)
    else if i > 0 then After(input, pairs, i - 1, |input.probes|)
    else Start(input, pairs)
  }

  predicate InTable(input: Input, pairs: seq<Pair>, i: nat, k: nat) {
    |pairs| == |input.scenarios| && i <= |pairs| && k <= |input.probes| && (i == |pairs| ==> k == 0)
  }

  lemma {:induction false} RejectionLasts(input: Input, pairs: seq<Pair>, i: nat, k: nat, i': nat, k': nat)
    requires InTable(input, pairs, i, k) && InTable(input, pairs, i', k')
    requires i < i' || (i == i' && k <= k')
    requires After(input, pairs, i, k).reject.Some?
    ensures After(input, pairs, i', k') == After(input, pairs, i, k)
    decreases i', k'
  {
    hide ScanCell;
    if k' > 0 && (i < i' || k < k') {
      RejectionLasts(input, pairs, i, k, i', k' - 1);
    } else if i < i' {
      RejectionLasts(input, pairs, i, k, i' - 1, |input.probes|);
    }
  }

  /** The nested loop with its inner and outer breaks. */
  method ScanAll(input: Input, pairs: seq<Pair>) returns (scan: Scan)
    requires |pairs| == |input.scenarios|
    ensures scan == After(input, pairs, |pairs|, 0)
  {
    hide ScanCell, Start;
    scan := Start(input, pairs);
    for i := 0 to |pairs|
      invariant scan == After(input, pairs, i, 0)
    {
      if scan.reject.Some? {
        RejectionLasts(input, pairs, i, 0, |pairs|, 0);
        return;
      }
      for k := 0 to |input.probes|
        invariant scan == After(input, pairs, i, k) && scan.reject.None?
      {
        scan := ScanCell(input, input.scenarios[i].id, pairs[i], input.probes[k], scan);
        if scan.reject.Some? {
          RejectionLasts(input, pairs, i, k + 1, |pairs|, 0);
          return;
        }
      }
    }
  }

  // ---------- the run ----------

  datatype Decided = Decided(proofs: seq<Proof>, coverage: Manifest, reject: Option<ReasonCode>, pairs: seq<Pair>,
                             envelope: Envelope)

  function Finish(input: Input, proofs: seq<Proof>, coverage: Manifest, reject: Option<ReasonCode>,
                  pairs: seq<Pair>): Decided {
    var envelope := Decide(proofs, coverage, Context(input.chain.status, reject));
    Decided(proofs, coverage, reject, pairs, envelope.(capabilities := envelope.capabilities.(other := input.compiler)))
  }

  /** The coverage recorded for a rejected run. */
  function Refused(cells: seq<Cell>, reason: ReasonCode, missing: seq<string>): Manifest {
    Manifest(cells, false, UniqueSorted([ReasonText(reason)] + missing, TextLeq))
  }

  function Conclude(input: Input, pairs: seq<Pair>, scan: Scan): Decided {
    if scan.reject.Some? then
      Finish(input, scan.proofs, Refused(scan.cells, scan.reject.value, scan.missing), scan.reject, pairs)
    else
      var coverage := Manifest(scan.cells, scan.missing == [], scan.missing);
      Finish(input, scan.proofs + ClosingProofs(input, coverage, scan.baseline, scan.candidate), coverage, None, pairs)
  }

  /** The diff hash an edit from this baseline to this candidate has. */
  function EditDiff(id: Identity): Digest {
    HashObj(Rec("pair", [Hash(id.baselineHash), Hash(id.candidateHash)]))
  }

  /** What stops a run before its replays: a foreign edit provenance, no identity lock, or the baseline's chain. */
  function EarlyReject(input: Input): Option<ReasonCode> {
    if input.editDiff.Some? && input.editDiff.value != EditDiff(input.identity) then Some(ReceiptBindingFailed)
    else if !input.locked then Some(ReceiptBindingFailed)
    else input.chain.error
  }

  function RunOf(input: Input): Decided
    requires forall s :: s in input.scenarios ==> ValidBars(s.bars)
  {
    var early := EarlyReject(input);
    if early.Some? then Finish(input, OpeningProofs(input), Refused([], early.value, []), early, [])
    else
      match Replays(input, |input.scenarios|)
      case Err(e) => Finish(input, OpeningProofs(input), Refused([], e, []), Some(e), [])
      case Ok(pairs) => Conclude(input, pairs, After(input, pairs, |pairs|, 0))
  }

  method RunRedline(input: Input) returns (run: Decided)
    requires ValidInput(input)
    ensures run == RunOf(input)
  {
    var proofs := OpeningProofs(input);
    var reject := if input.locked then input.chain.error else Some(ReceiptBindingFailed);
    var diff := if input.editDiff.Some? then input.editDiff.value else EditDiff(input.identity);
    if diff != EditDiff(input.identity) { reject := Some(ReceiptBindingFailed); }
    var pairs: seq<Pair> := [];
    if reject.None? {
      var replayed := ReplayAll(input);
      match replayed
      case Err(e) => reject := Some(e);
      case Ok(ps) => pairs := ps;
    }
    var coverage: Manifest;
    if reject.Some? {
      coverage := Refused([], reject.value, []);
    } else {
      var scan := ScanAll(input, pairs);
      proofs, reject := scan.proofs, scan.reject;
      if reject.Some? {
        coverage := Refused(scan.cells, reject.value, scan.missing);
      } else {
        coverage := Manifest(scan.cells, scan.missing == [], scan.missing);
        proofs := proofs + ClosingProofs(input, coverage, scan.baseline, scan.candidate);
      }
    }
    var envelope := DecideEnvelope(proofs, coverage, Context(input.chain.status, reject));
    run := Decided(proofs, coverage, reject, pairs,
                   envelope.(capabilities := envelope.capabilities.(other := input.compiler)));
  }
}
