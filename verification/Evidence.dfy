/** The proofs a run that ends in PASS or WITHHELD hands over, one by one. */
module Evidence {
  import opened Wrappers
  import opened Models
  import opened Digests
  import opened Canonical
  import opened Replay
  import opened Probes
  import opened ProofKernel
  import opened Runner
  import opened RunVerdict
  import opened RoundTrip

  /** A blocking probe asserts this of a trace of the run: of a baseline's or of a candidate's. */
  ghost predicate BlockingSays(input: Input, pairs: seq<Pair>, candidate: bool, x: Assertion) {
    exists a, b :: BlockingSaysAt(input, pairs, candidate, x, a, b)
  }

  ghost predicate BlockingSaysAt(input: Input, pairs: seq<Pair>, candidate: bool, x: Assertion, a: nat, b: nat) {
    && a < |pairs| && b < |input.probes| && input.probes[b].block
    && var r := Evaluate(input.probes[b].check, if candidate then pairs[a].candidate else pairs[a].baseline);
    r.Some? && x in r.value.assertions
  }

  /** The proof of one cell: what the probe asserts of the candidate, under the names of scenario and probe. */
  ghost predicate CellEvidence(input: Input, pairs: seq<Pair>, p: Proof, a: nat, b: nat) {
    && a < |pairs| == |input.scenarios| && b < |input.probes|
    && p.kind == Probe && p.phase == "probe"
    && p.inputsHash == HashObj(Rec("cell", [Text(input.scenarios[a].id), Text(input.probes[b].id)]))
    && p.verdictBearing == input.probes[b].block
    && p.meta.scenarioId == Some(input.scenarios[a].id) && p.meta.probeId == Some(input.probes[b].id)
    && p.meta.breachAction.None? && p.meta.sizeCap.None?
    && var base, cand := Evaluate(input.probes[b].check, pairs[a].baseline),
                         Evaluate(input.probes[b].check, pairs[a].candidate);
    && base.Some? && cand.Some? && p.assertions == cand.value.assertions
    && p.artifactHash == HashObj(Rec("probe_pair", [EncodeResult(base.value), EncodeResult(cand.value)]))
  }

  /** A replay has as many points as it says, and some. */
  ghost predicate LengthOf(x: Assertion, t: Trace) {
    && x.metric == "replay_wellformed" && x.op == "==" && x.threshold == NatText(t.bars)
    && x.observed == NatText(|t.points|) && x.scenarioId == t.scenarioId
    && x.bar == (if t.points == [] then 0 else t.points[|t.points| - 1].bar)
    && (x.holds <==> t.bars == |t.points| && t.bars > 0)
  }

  /** The phase of a kind, and what its inputs are a digest of. */
  function PhaseOf(kind: ProofKind): string {
    match kind
    case PackageCanonical => "import"
    case EditProvenance => "capture-edit"
    case SpecCompile => "compile"
    case ReplayRun => "run"
    case ReplayWellformed => "run"
    case BaselineCalibration => "calibrate"
    case Coverage => "decide"
    case _ => "probe"
  }

  ghost predicate InputsAre(input: Input, pairs: seq<Pair>, kind: ProofKind, inputs: Digest) {
    var id := input.identity;
    match kind
    case EditProvenance => inputs == HashObj(Rec("pair", [Hash(id.baselineHash), Hash(id.candidateHash)]))
    case SpecCompile => inputs == HashObj(Rec("compiler", [input.compiler]))
    case ReplayRun =>
      inputs == HashObj(Rec("replay", [input.suite, Hash(id.baselineHash), Hash(id.candidateHash)]))
    case ReplayWellformed => inputs == HashObj(Rec("trace_hashes", [EncodeTraces(pairs)]))
    case BaselineCalibration => inputs == HashObj(Rec("calibration", [Hash(id.baselineHash), input.suite]))
    case CandidateAbsolute => inputs == HashObj(Rec("candidate", [Hash(id.candidateHash)]))
    case Coverage => inputs == HashObj(Rec("suite_spec", [input.suite, input.spec]))
    case _ => true
  }

  /** What the proof of each other kind carries. */
  ghost predicate FixedEvidence(input: Input, pairs: seq<Pair>, coverage: Manifest, p: Proof) {
    && OtherKind(p.kind) && p.phase == PhaseOf(p.kind) && InputsAre(input, pairs, p.kind, p.inputsHash)
    && p.meta == NO_META && (p.verdictBearing <==> p.kind != EditProvenance)
    && (p.kind == PackageCanonical ==>
          p.artifactHash == HashObj(Rec("package", [Hash(input.identity.packageHash), Hash(input.identity.baselineHash),
                                                    Hash(input.identity.candidateHash), Text(input.identity.adapterId),
                                                    Hash(input.identity.lockHash)])))
    && (p.kind == EditProvenance ==> p.artifactHash == HashObj(input.provenance))
    && (p.kind == SpecCompile ==> p.artifactHash == HashObj(input.spec))
    && (p.kind == ReplayRun ==>
          && p.artifactHash == HashObj(EncodeTraces(pairs))
          && p.guards == Rec("guards", [Text(input.fillModel), Text("structural_next_bar"), Flag(true)]))
    && (p.kind == ProofKind.Coverage ==> p.artifactHash == HashObj(EncodeManifest(coverage)))
    && (p.kind in {PackageCanonical, EditProvenance, SpecCompile, ReplayRun, ProofKind.Coverage} ==> p.assertions == [])
    && (p.kind == ReplayWellformed ==>
          && |p.assertions| == 2 * |pairs|
          && forall i :: 0 <= i < |pairs| ==>
               LengthOf(p.assertions[2 * i], pairs[i].baseline) &&
                 LengthOf(p.assertions[2 * i + 1], pairs[i].candidate))
    && (p.kind == BaselineCalibration ==> forall x :: x in p.assertions <==> BlockingSays(input, pairs, false, x))
    && (p.kind == CandidateAbsolute ==> forall x :: x in p.assertions <==>
          BlockingSays(input, pairs, true, x) && (x.metric == "max_drawdown" || x.metric == "trade_budget"))
  }

  // ---------- the assertions gathered by the scan ----------

  ghost predicate SaysBefore(input: Input, pairs: seq<Pair>, candidate: bool, x: Assertion, i: nat, k: nat) {
    exists a, b :: BlockingSaysAt(input, pairs, candidate, x, a, b) && Earlier(a, b, i, k)
  }

  lemma {:induction false} GatheredStep(input: Input, pairs: seq<Pair>, i: nat, k: nat, before: Scan)
    requires Cellular(input, pairs, i, k) && Clean(input, pairs, i, k)
    ensures var scan := ScanCell(input, input.scenarios[i].id, pairs[i], input.probes[k], before);
      && (forall x :: x in scan.baseline <==> x in before.baseline || BlockingSaysAt(input, pairs, false, x, i, k))
      && (forall x :: x in scan.candidate <==> x in before.candidate || BlockingSaysAt(input, pairs, true, x, i, k))
  {
    hide Evaluate, FromReplay;
    EvaluateShape(input.probes[k].check, pairs[i].baseline);
    EvaluateShape(input.probes[k].check, pairs[i].candidate);
  }

  lemma {:induction false} SaysStep(input: Input, pairs: seq<Pair>, candidate: bool, x: Assertion, i: nat, k: nat)
    requires k > 0
    ensures SaysBefore(input, pairs, candidate, x, i, k) <==>
      SaysBefore(input, pairs, candidate, x, i, k - 1) || BlockingSaysAt(input, pairs, candidate, x, i, k - 1)
  {
    hide BlockingSaysAt;
  }

  lemma {:induction false} SaysRow(input: Input, pairs: seq<Pair>, candidate: bool, x: Assertion, i: nat)
    requires i > 0
    ensures SaysBefore(input, pairs, candidate, x, i, 0) <==>
      SaysBefore(input, pairs, candidate, x, i - 1, |input.probes|)
  {
    if SaysBefore(input, pairs, candidate, x, i, 0) {
      var a, b :| BlockingSaysAt(input, pairs, candidate, x, a, b) && Earlier(a, b, i, 0);
      assert Earlier(a, b, i - 1, |input.probes|);
    }
    if SaysBefore(input, pairs, candidate, x, i - 1, |input.probes|) {
      var a, b :| BlockingSaysAt(input, pairs, candidate, x, a, b) && Earlier(a, b, i - 1, |input.probes|);
      assert Earlier(a, b, i, 0);
    }
  }

  lemma {:induction false} Gathered(input: Input, pairs: seq<Pair>, i: nat, k: nat)
    requires GoodPairs(input, pairs) && InTable(input, pairs, i, k) && AllClean(input, pairs, i, k)
    ensures var scan := After(input, pairs, i, k);
      && (forall x :: x in scan.baseline <==> SaysBefore(input, pairs, false, x, i, k))
      && (forall x :: x in scan.candidate <==> SaysBefore(input, pairs, true, x, i, k))
    decreases i, k
  {
    hide ScanCell, Clean, Start, FromReplay, BlockingSaysAt, SaysBefore;
    if k > 0 {
      Gathered(input, pairs, i, k - 1);
      CleanScan(input, pairs, i, k - 1);
      assert Cellular(input, pairs, i, k - 1) && Earlier(i, k - 1, i, k);
      GatheredStep(input, pairs, i, k - 1, After(input, pairs, i, k - 1));
      forall candidate, x
        ensures SaysBefore(input, pairs, candidate, x, i, k) <==>
          SaysBefore(input, pairs, candidate, x, i, k - 1) || BlockingSaysAt(input, pairs, candidate, x, i, k - 1)
      {
        SaysStep(input, pairs, candidate, x, i, k);
      }
    } else if i > 0 {
      Gathered(input, pairs, i - 1, |input.probes|);
      forall candidate, x
        ensures SaysBefore(input, pairs, candidate, x, i, 0) <==>
          SaysBefore(input, pairs, candidate, x, i - 1, |input.probes|)
      {
        SaysRow(input, pairs, candidate, x, i);
      }
    } else {
      NothingGathered(input, pairs);
    }
  }

  lemma {:induction false} NothingGathered(input: Input, pairs: seq<Pair>)
    ensures Start(input, pairs).baseline == Start(input, pairs).candidate == []
    ensures forall candidate, x :: !SaysBefore(input, pairs, candidate, x, 0, 0)
  {
  }

  lemma {:induction false} AllGathered(input: Input, pairs: seq<Pair>)
    requires GoodPairs(input, pairs) && AllClean(input, pairs, |pairs|, 0)
    ensures var scan := After(input, pairs, |pairs|, 0);
      && (forall x :: x in scan.baseline <==> BlockingSays(input, pairs, false, x))
      && (forall x :: x in scan.candidate <==> BlockingSays(input, pairs, true, x))
  {
    hide FromReplay, After;
    Gathered(input, pairs, |pairs|, 0);
  }

  // ---------- the proofs ----------

  lemma {:induction false} WellformedAre(pairs: seq<Pair>)
    ensures var s := WellformedAll(pairs);
      && |s| == 2 * |pairs|
      && forall i :: 0 <= i < |pairs| ==>
           LengthOf(s[2 * i], pairs[i].baseline) && LengthOf(s[2 * i + 1], pairs[i].candidate)
  {
    hide NatText;
    if pairs != [] { WellformedAre(pairs[..|pairs| - 1]); }
  }

  lemma {:induction false} AbsoluteMembers(s: seq<Assertion>)
    ensures forall x :: x in Absolute(s) <==> x in s && (x.metric == "max_drawdown" || x.metric == "trade_budget")
  {
    if s != [] {
      AbsoluteMembers(s[..|s| - 1]);
      assert s == s[..|s| - 1] + [s[|s| - 1]];
    }
  }

  lemma {:induction false} CellEvidenceAt(input: Input, pairs: seq<Pair>, a: nat, b: nat)
    requires Cellular(input, pairs, a, b)
    ensures CellEvidence(input, pairs, ProofAt(input, pairs, a, b), a, b)
  {
    hide Evaluate, FromReplay, EncodeResult;
    EvaluateShape(input.probes[b].check, pairs[a].baseline);
    EvaluateShape(input.probes[b].check, pairs[a].candidate);
  }

  lemma {:induction false} OpeningEvidence(input: Input, pairs: seq<Pair>, coverage: Manifest)
    ensures forall p :: p in OpeningProofs(input) + ReplayProofs(input, pairs) ==>
      FixedEvidence(input, pairs, coverage, p)
  {
    hide WellformedAll, LengthOf, EncodeTraces, EncodeAssertions, BlockingSays, NatText;
    WellformedAre(pairs);
  }

  lemma {:induction false} ClosingEvidence(input: Input, pairs: seq<Pair>, coverage: Manifest, base: seq<Assertion>,
                                           cand: seq<Assertion>)
    requires forall x :: x in base <==> BlockingSays(input, pairs, false, x)
    requires forall x :: x in cand <==> BlockingSays(input, pairs, true, x)
    ensures forall p :: p in ClosingProofs(input, coverage, base, cand) ==> FixedEvidence(input, pairs, coverage, p)
  {
    hide Absolute, LengthOf, EncodeManifest, EncodeAssertions, BlockingSays, NatText;
    AbsoluteMembers(cand);
  }

  /** One proof for every cell. */
  ghost predicate CellsProved(input: Input, pairs: seq<Pair>, proofs: seq<Proof>) {
    && (forall p :: p in proofs && p.kind == Probe ==> exists a, b :: CellEvidence(input, pairs, p, a, b))
    && (forall a: nat, b: nat :: InGrid(input, pairs, a, b) ==>
          exists p :: p in proofs && CellEvidence(input, pairs, p, a, b))
  }

  predicate InGrid(input: Input, pairs: seq<Pair>, a: nat, b: nat) {
    a < |pairs| && b < |input.probes|
  }

  ghost predicate OthersProved(input: Input, pairs: seq<Pair>, coverage: Manifest, proofs: seq<Proof>) {
    && (forall p :: p in proofs && p.kind != Probe ==> FixedEvidence(input, pairs, coverage, p))
    && (forall kind :: OtherKind(kind) ==> exists p :: p in proofs && p.kind == kind)
    && (forall p :: p in proofs ==> p.id == ProofId(p.kind, p.artifactHash))
  }

  predicate OtherKind(kind: ProofKind) {
    kind in {PackageCanonical, EditProvenance, SpecCompile, ReplayRun, ReplayWellformed, ProofKind.Coverage,
             BaselineCalibration, CandidateAbsolute}
  }

  /** A run that ends in PASS or WITHHELD has one proof for every cell of probes and scenarios, and one of each of
      the eight other kinds; what each of them asserts is said in full, and the coverage names exactly the blocking
      cells. */
  lemma {:induction false} RunEvidence(input: Input)
    requires ValidInput(input) && RunOf(input).envelope.status in {Pass, Withheld}
    ensures var run := RunOf(input);
      && |run.pairs| == |input.scenarios| && |run.proofs| == 8 + |run.pairs| * |input.probes|
      && CellsProved(input, run.pairs, run.proofs) && OthersProved(input, run.pairs, run.coverage, run.proofs)
      && run.coverage.complete && run.coverage.missing == []
      && forall c :: c in run.coverage.cells <==> exists a, b :: BlockingCellAt(input, a, b, c)
  {
    hide Conclude, After, AllClean, FromReplay, CellsProved, OthersProved, Decide, OpeningProofs;
    IssuingRun(input);
    var pairs := RunOf(input).pairs;
    TableMembers(input);
    TableIsPlaces(input, pairs);
    ConclusionEvidence(input, pairs);
    BlockingCellsAre(input, pairs);
  }

  lemma {:induction false} ConclusionEvidence(input: Input, pairs: seq<Pair>)
    requires ValidInput(input) && GoodPairs(input, pairs) && AllClean(input, pairs, |pairs|, 0)
    requires InBounds(input, Table(input)) && Table(input) == Places(|input.probes|, |pairs|, 0)
    ensures var run := Conclude(input, pairs, After(input, pairs, |pairs|, 0));
      && |run.proofs| == 8 + |pairs| * |input.probes|
      && CellsProved(input, pairs, run.proofs) && OthersProved(input, pairs, run.coverage, run.proofs)
      && run.coverage == Manifest(BlockCells(input, Table(input)), true, [])
  {
    hide After, AllClean, InBounds, Table, ProbeProofs, OpeningProofs, ReplayProofs, ClosingProofs, FixedEvidence,
      CellEvidence, FromReplay, ProofAt, CellsProved, OthersProved, Decide, BlockCells, OwnId, Conclude, ValidInput,
      BlockingSays, Places;
    var scan := After(input, pairs, |pairs|, 0);
    var coverage := Conclude(input, pairs, scan).coverage;
    CleanConclusion(input, pairs);
    CleanTable(input, pairs);
    AllGathered(input, pairs);
    OpeningEvidence(input, pairs, coverage);
    ClosingEvidence(input, pairs, coverage, scan.baseline, scan.candidate);
    FixedLayout(input, pairs, coverage, scan.baseline, scan.candidate);
    ProbesLayout(input, pairs);
    TableSize(|input.probes|, |pairs|, 0);
    var prefix, probes := OpeningProofs(input) + ReplayProofs(input, pairs), ProbeProofs(input, pairs, Table(input));
    var suffix := ClosingProofs(input, coverage, scan.baseline, scan.candidate);
    NotProbes(input, pairs, coverage, prefix + suffix);
    JoinCells(input, pairs, prefix, suffix);
    JoinOthers(input, pairs, coverage, prefix, probes, suffix);
    KindsCount(prefix, suffix);
    assert |probes| == |Table(input)| by { ProbesCount(input, pairs); }
  }

  lemma {:induction false} ProbesCount(input: Input, pairs: seq<Pair>)
    requires GoodPairs(input, pairs) && InBounds(input, Table(input))
    ensures |ProbeProofs(input, pairs, Table(input))| == |Table(input)|
  {
    hide ProofAt, FromReplay;
  }

  lemma {:induction false} NotProbes(input: Input, pairs: seq<Pair>, coverage: Manifest, proofs: seq<Proof>)
    requires forall p :: p in proofs ==> FixedEvidence(input, pairs, coverage, p)
    ensures forall p :: p in proofs ==> p.kind != Probe
  {
  }

  ghost predicate BlockingCellAt(input: Input, a: nat, b: nat, c: Cell) {
    && a < |input.scenarios| && b < |input.probes| && input.probes[b].block
    && c == (input.scenarios[a].id, input.probes[b].id)
  }

  lemma {:induction false} BlockingCellsAre(input: Input, pairs: seq<Pair>)
    requires ValidInput(input) && GoodPairs(input, pairs) && InBounds(input, Table(input))
    ensures forall c :: c in BlockCells(input, Table(input)) <==> exists a, b :: BlockingCellAt(input, a, b, c)
  {
    hide ProofAt, FromReplay, ProbeProofs, BlockCells, Table, ValidInput, InBounds;
    TableContents(input, pairs);
    forall a, b, c | BlockingCellAt(input, a, b, c) ensures c in BlockCells(input, Table(input)) {
      assert Cellular(input, pairs, a, b);
    }
    forall c | c in BlockCells(input, Table(input)) ensures exists a, b :: BlockingCellAt(input, a, b, c) {
      var a: nat, b: nat :| Cellular(input, pairs, a, b) && input.probes[b].block && c == CellOf(input, a, b);
      assert BlockingCellAt(input, a, b, c);
    }
  }

  lemma {:induction false} CleanTable(input: Input, pairs: seq<Pair>)
    requires GoodPairs(input, pairs) && AllClean(input, pairs, |pairs|, 0) && InBounds(input, Table(input))
    requires Table(input) == Places(|input.probes|, |pairs|, 0)
    ensures var run := Conclude(input, pairs, After(input, pairs, |pairs|, 0));
      run.coverage == Manifest(BlockCells(input, Table(input)), true, [])
  {
    hide ProofAt, Decide, ScanCell, FromReplay, AllClean, After, BlockCells, Table, ProbeProofs, ClosingProofs,
      InBounds;
    CleanScan(input, pairs, |pairs|, 0);
  }

  lemma {:induction false} TableSize(m: nat, i: nat, k: nat)
    requires k <= m
    ensures |Places(m, i, k)| == i * m + k
    decreases i, k
  {
    if k > 0 {
      TableSize(m, i, k - 1);
    } else if i > 0 {
      TableSize(m, i - 1, m);
    }
  }

  lemma {:induction false} KindsCount(prefix: seq<Proof>, suffix: seq<Proof>)
    requires Kinds(prefix) == PREFIX_KINDS && Kinds(suffix) == SUFFIX_KINDS
    ensures |prefix| == 5 && |suffix| == 3
  {
    assert |prefix| == |Kinds(prefix)| && |suffix| == |Kinds(suffix)|;
  }

  lemma {:induction false} JoinCells(input: Input, pairs: seq<Pair>, prefix: seq<Proof>, suffix: seq<Proof>)
    requires ValidInput(input) && GoodPairs(input, pairs) && InBounds(input, Table(input))
    requires forall p :: p in prefix + suffix ==> p.kind != Probe
    ensures CellsProved(input, pairs, prefix + ProbeProofs(input, pairs, Table(input)) + suffix)
  {
    hide ProofAt, FromReplay, ProbeProofs, BlockCells, Table, ValidInput, InBounds, CellEvidence;
    TableContents(input, pairs);
    var probes := ProbeProofs(input, pairs, Table(input));
    var proofs := prefix + probes + suffix;
    forall p | p in proofs && p.kind == Probe ensures exists a, b :: CellEvidence(input, pairs, p, a, b) {
      assert p !in prefix + suffix;
      var a: nat, b: nat :| Cellular(input, pairs, a, b) && p == ProofAt(input, pairs, a, b);
      CellEvidenceAt(input, pairs, a, b);
    }
    forall a: nat, b: nat | InGrid(input, pairs, a, b)
      ensures exists p :: p in proofs && CellEvidence(input, pairs, p, a, b)
    {
      assert Cellular(input, pairs, a, b);
      CellEvidenceAt(input, pairs, a, b);
      assert ProofAt(input, pairs, a, b) in proofs;
    }
  }

  lemma {:induction false} JoinOthers(input: Input, pairs: seq<Pair>, coverage: Manifest, prefix: seq<Proof>,
                                      probes: seq<Proof>, suffix: seq<Proof>)
    requires Kinds(prefix) == PREFIX_KINDS && Kinds(suffix) == SUFFIX_KINDS
    requires forall p :: p in probes ==> p.kind == Probe && OwnId(p)
    requires forall p :: p in prefix + suffix ==> FixedEvidence(input, pairs, coverage, p) && OwnId(p)
    ensures OthersProved(input, pairs, coverage, prefix + probes + suffix)
  {
    hide FixedEvidence, OtherKind, Kinds;
    var proofs := prefix + probes + suffix;
    forall p | p in proofs ensures p in probes || p in prefix + suffix {
      assert p in prefix || p in probes || p in suffix;
    }
    forall kind | OtherKind(kind) ensures exists p :: p in proofs && p.kind == kind {
      KindIn(prefix, suffix, kind);
      var p :| p in prefix + suffix && p.kind == kind;
      assert p in proofs;
    }
  }

  lemma {:induction false} KindIn(prefix: seq<Proof>, suffix: seq<Proof>, kind: ProofKind)
    requires Kinds(prefix) == PREFIX_KINDS && Kinds(suffix) == SUFFIX_KINDS && OtherKind(kind)
    ensures exists p :: p in prefix + suffix && p.kind == kind
  {
    KindsCount(prefix, suffix);
    assert forall i :: 0 <= i < 5 ==> prefix[i].kind == Kinds(prefix)[i] && prefix[i] in prefix + suffix;
    assert forall i :: 0 <= i < 3 ==> suffix[i].kind == Kinds(suffix)[i] && suffix[i] in prefix + suffix;
    assert prefix[0].kind == PackageCanonical && prefix[1].kind == EditProvenance && prefix[2].kind == SpecCompile;
    assert prefix[3].kind == ReplayRun && prefix[4].kind == ReplayWellformed && suffix[0].kind == ProofKind.Coverage;
    assert suffix[1].kind == BaselineCalibration && suffix[2].kind == CandidateAbsolute;
  }

  // ---------- traces in a digest ----------

  /** The point as it is printed. */
  ghost predicate PrintsAs(p: Point, q: Point) {
    && p.bar == q.bar && p.timestamp == q.timestamp && CanonicalNumber(p.close) == CanonicalNumber(q.close)
    && CanonicalNumber(p.nav) == CanonicalNumber(q.nav) && CanonicalNumber(p.peak) == CanonicalNumber(q.peak)
    && CanonicalNumber(p.drawdown) == CanonicalNumber(q.drawdown)
    && CanonicalNumber(p.position) == CanonicalNumber(q.position)
  }

  lemma {:induction false} EncodePointBinds(p: Point, q: Point)
    ensures EncodePoint(p) == EncodePoint(q) <==> PrintsAs(p, q)
  {
    hide CanonicalNumber;
    var x, y := EncodePoint(p).fields, EncodePoint(q).fields;
    assert x == y ==>
      x[0] == y[0] && x[1] == y[1] && x[2] == y[2] && x[3] == y[3] && x[4] == y[4] && x[5] == y[5] && x[6] == y[6];
  }

  /** The digest of a replay pins role, scenario, counts and every point up to what is printed of it. */
  lemma {:induction false} EncodeTraceBinds(role: string, t: Trace, other: string, u: Trace)
    ensures EncodeTrace(role, t) == EncodeTrace(other, u) <==>
      && role == other && t.scenarioId == u.scenarioId && t.bars == u.bars && t.tradeCount == u.tradeCount
      && |t.points| == |u.points| && forall i :: 0 <= i < |t.points| ==> PrintsAs(t.points[i], u.points[i])
  {
    hide EncodePoint, PrintsAs;
    forall i | 0 <= i < |t.points| && i < |u.points|
      ensures EncodePoint(t.points[i]) == EncodePoint(u.points[i]) <==> PrintsAs(t.points[i], u.points[i])
    {
      EncodePointBinds(t.points[i], u.points[i]);
    }
    var x, y := EncodeTrace(role, t).fields, EncodeTrace(other, u).fields;
    var v, w := x[4].items, y[4].items;
    assert forall i :: 0 <= i < |t.points| ==> v[i] == EncodePoint(t.points[i]);
    assert forall i :: 0 <= i < |u.points| ==> w[i] == EncodePoint(u.points[i]);
    if EncodeTrace(role, t) == EncodeTrace(other, u) {
      assert x[0] == y[0] && x[1] == y[1] && x[2] == y[2] && x[3] == y[3] && v == w;
    }
    if |t.points| == |u.points| && forall i :: 0 <= i < |t.points| ==> PrintsAs(t.points[i], u.points[i]) {
      assert v == w;
    }
  }

  /** The digest of a run's replays pins every pair of them. */
  lemma {:induction false} EncodeTracesBinds(pairs: seq<Pair>, others: seq<Pair>)
    ensures EncodeTraces(pairs) == EncodeTraces(others) <==>
      && |pairs| == |others|
      && forall i :: 0 <= i < |pairs| ==>
           && EncodeTrace("baseline", pairs[i].baseline) == EncodeTrace("baseline", others[i].baseline)
           && EncodeTrace("candidate", pairs[i].candidate) == EncodeTrace("candidate", others[i].candidate)
  {
    hide EncodeTrace;
    var x, y := EncodeTraces(pairs).items, EncodeTraces(others).items;
    if x == y {
      forall i | 0 <= i < |pairs|
        ensures EncodeTrace("baseline", pairs[i].baseline) == EncodeTrace("baseline", others[i].baseline)
        ensures EncodeTrace("candidate", pairs[i].candidate) == EncodeTrace("candidate", others[i].candidate)
      {
        assert x[i] == y[i] && x[i].items[0] == y[i].items[0] && x[i].items[1] == y[i].items[1];
      }
    }
  }

  /** The envelope is the decision on the run's own proofs and coverage, for the baseline's chain status, and carries
      what compiled the spec. */
  lemma {:induction false} EnvelopeExactly(input: Input)
    requires ValidInput(input)
    ensures var run := RunOf(input);
      && run.envelope.chainStatus == input.chain.status && run.envelope.capabilities.other == input.compiler
      && run.envelope.(capabilities := Capabilities(run.envelope.capabilities.scenarioCount, Null)) ==
         Decide(run.proofs, run.coverage, Context(input.chain.status, run.reject))
  {
    hide Replays, After, OpeningProofs, ClosingProofs, Refused, Checked, FinalVerdict, RequiredIds, DecisionId,
      ScenarioCount, AllIds;
  }
}
