/** From the status of a run back to quantified facts about NAV and positions. */
module RunVerdict {
  import opened Wrappers
  import opened Models
  import opened Digests
  import opened Replay
  import opened Probes
  import opened ProofKernel
  import opened Runner
  import opened Reference
  import opened Decisions

  // ---------- traces ----------

  ghost predicate FromReplay(trace: Trace, scenarioId: string) {
    trace.scenarioId == scenarioId && exists cfg, bars, signals :: Replayed(trace, cfg, bars, signals)
  }

  lemma {:induction false} ReplayOfReplayed(scenarioId: string, bars: seq<Bar>, config: Config, signals: seq<real>)
    requires ValidBars(bars) && ReplayOf(scenarioId, bars, config, signals).Ok?
    ensures FromReplay(ReplayOf(scenarioId, bars, config, signals).value, scenarioId)
    ensures ReplayOf(scenarioId, bars, config, signals).value.points != []
  {
    var cfg := ReadSettings(config).value;
    assert Replayed(ReplayOf(scenarioId, bars, config, signals).value, cfg, bars, signals);
  }

  /** One pair of completed replays for every scenario, in order. */
  ghost predicate GoodPairs(input: Input, pairs: seq<Pair>) {
    && |pairs| == |input.scenarios|
    && forall i :: 0 <= i < |pairs| ==>
         && FromReplay(pairs[i].baseline, input.scenarios[i].id) && pairs[i].baseline.points != []
         && FromReplay(pairs[i].candidate, input.scenarios[i].id) && pairs[i].candidate.points != []
  }

  lemma {:induction false} ReplaysAreGood(input: Input, k: nat)
    requires k <= |input.scenarios| && forall s :: s in input.scenarios ==> ValidBars(s.bars)
    requires Replays(input, k).Ok?
    ensures GoodPairs(input.(scenarios := input.scenarios[..k]), Replays(input, k).value)
  {
    hide ReplayOf, FromReplay, ValidBars;
    if k > 0 {
      ReplaysAreGood(input, k - 1);
      var s := input.scenarios[k - 1];
      ReplayOfReplayed(s.id, s.bars, ConfigFor(input, input.baselinePackage), s.baseline.values);
      ReplayOfReplayed(s.id, s.bars, ConfigFor(input, input.candidatePackage), s.candidate.values);
    }
  }

  /** On a trace with points no probe raises or reports ERRORED, and its assertion names the scenario. */
  lemma {:induction false} EvaluateShape(check: Check, trace: Trace)
    requires trace.points != []
    ensures Evaluate(check, trace).Some?
    ensures var r := Evaluate(check, trace).value;
      r.outcome != Errored && r.assertions != [] && r.assertions[0].scenarioId == trace.scenarioId
  {
  }

  // ---------- the table of cells ----------

  predicate Earlier(a: nat, b: nat, i: nat, k: nat) {
    a < i || (a == i && b < k)
  }

  ghost predicate Cellular(input: Input, pairs: seq<Pair>, a: nat, b: nat) {
    GoodPairs(input, pairs) && a < |pairs| && b < |input.probes|
  }

  function CellOf(input: Input, a: nat, b: nat): Cell
    requires a < |input.scenarios| && b < |input.probes|
  {
    (input.scenarios[a].id, input.probes[b].id)
  }

  /** The cell delivers results and, when blocking, the baseline passes it. */
  ghost predicate Clean(input: Input, pairs: seq<Pair>, a: nat, b: nat)
    requires Cellular(input, pairs, a, b)
  {
    && CellOf(input, a, b) !in input.faults
    && (input.probes[b].block ==> Holds(input.probes[b].check, pairs[a].baseline))
  }

  ghost function ProofAt(input: Input, pairs: seq<Pair>, a: nat, b: nat): Proof
    requires Cellular(input, pairs, a, b)
  {
    EvaluateShape(input.probes[b].check, pairs[a].baseline);
    EvaluateShape(input.probes[b].check, pairs[a].candidate);
    ProbeProof(CellOf(input, a, b), input.probes[b].block,
               Evaluate(input.probes[b].check, pairs[a].baseline).value,
                 Evaluate(input.probes[b].check, pairs[a].candidate).value)
  }

  /** The cells before probe `k` of scenario `i`, in the order they are scanned. */
  function Places(m: nat, i: nat, k: nat): seq<(nat, nat)>
    decreases i, k
  {
    if k > 0 then Places(m, i, k - 1) + [(i, k - 1)]
    else if i > 0 then Places(m, i - 1, m)
    else []
  }

  lemma {:induction false} PlacesMembers(m: nat, i: nat, k: nat)
    requires k <= m
    ensures forall a: nat, b: nat :: (a, b) in Places(m, i, k) <==> Earlier(a, b, i, k) && b < m
    ensures forall x, y :: 0 <= x < y < |Places(m, i, k)| ==> Places(m, i, k)[x] != Places(m, i, k)[y]
    decreases i, k
  {
    if k > 0 {
      PlacesMembers(m, i, k - 1);
      assert Places(m, i, k)[|Places(m, i, k)| - 1] == (i, k - 1);
      assert (i, k - 1) !in Places(m, i, k - 1);
    } else if i > 0 {
      PlacesMembers(m, i - 1, m);
    }
  }

  ghost predicate InBounds(input: Input, places: seq<(nat, nat)>) {
    forall x :: 0 <= x < |places| ==> places[x].0 < |input.scenarios| && places[x].1 < |input.probes|
  }

  ghost function ProbeProofs(input: Input, pairs: seq<Pair>, places: seq<(nat, nat)>): seq<Proof>
    requires GoodPairs(input, pairs) && InBounds(input, places)
  {
    seq(|places|, x requires 0 <= x < |places| => ProofAt(input, pairs, places[x].0, places[x].1))
  }

  ghost function BlockCells(input: Input, places: seq<(nat, nat)>): seq<Cell>
    requires InBounds(input, places)
  {
    if places == [] then []
    else
      var last := places[|places| - 1];
      BlockCells(input, places[..|places| - 1]) + if input.probes[last.1].block then [CellOf(input, last.0, last.1)]
        else []
  }

  lemma {:induction false} BlockCellMembers(input: Input, places: seq<(nat, nat)>)
    requires InBounds(input, places)
    ensures forall c :: c in BlockCells(input, places) <==>
      exists x :: 0 <= x < |places| && input.probes[places[x].1].block && c == CellOf(input, places[x].0, places[x].1)
  {
    if places != [] {
      var front, n := places[..|places| - 1], |places| - 1;
      BlockCellMembers(input, front);
      forall c ensures c in BlockCells(input, places) <==>
        exists x :: 0 <= x < |places| && input.probes[places[x].1].block && c == CellOf(input, places[x].0, places[x].1)
      {
        if x :| 0 <= x < |front| && input.probes[front[x].1].block && c == CellOf(input, front[x].0, front[x].1) {
          assert places[x] == front[x];
        }
        if x :| 0 <= x < |places| && input.probes[places[x].1].block && c == CellOf(input, places[x].0, places[x].1) {
          assert x < n ==> front[x] == places[x];
        }
      }
    }
  }

  lemma {:induction false} CellsDiffer(input: Input, a: nat, b: nat, c: nat, d: nat)
    requires ValidInput(input) && a < |input.scenarios| && c < |input.scenarios| && b < |input.probes| &&
      d < |input.probes|
    requires (a, b) != (c, d)
    ensures CellOf(input, a, b) != CellOf(input, c, d)
  {
  }

  lemma {:induction false} BlockCellsDistinct(input: Input, places: seq<(nat, nat)>)
    requires ValidInput(input) && InBounds(input, places)
    requires forall x, y :: 0 <= x < y < |places| ==> places[x] != places[y]
    ensures !HasDuplicates(BlockCells(input, places))
  {
    hide CellOf;
    if places != [] {
      var front, last := places[..|places| - 1], places[|places| - 1];
      BlockCellsDistinct(input, front);
      BlockCellMembers(input, front);
      forall x | 0 <= x < |front| ensures front[x] == places[x] &&
        CellOf(input, front[x].0, front[x].1) != CellOf(input, last.0, last.1) {
        CellsDiffer(input, front[x].0, front[x].1, last.0, last.1);
      }
      NoDuplicatesSnoc(BlockCells(input, front), CellOf(input, last.0, last.1));
    }
  }

  lemma {:induction false} NoDuplicatesSnoc(cells: seq<Cell>, c: Cell)
    requires !HasDuplicates(cells) && c !in cells
    ensures !HasDuplicates(cells + [c])
  {
  }

  // ---------- the scan ----------

  ghost predicate AllClean(input: Input, pairs: seq<Pair>, i: nat, k: nat)
    requires GoodPairs(input, pairs)
  {
    forall a: nat, b: nat :: Cellular(input, pairs, a, b) && Earlier(a, b, i, k) ==> Clean(input, pairs, a, b)
  }

  /** A clean table is scanned to the end, one proof per cell. */
  lemma {:induction false} CleanScan(input: Input, pairs: seq<Pair>, i: nat, k: nat)
    requires GoodPairs(input, pairs) && InTable(input, pairs, i, k) && AllClean(input, pairs, i, k)
    ensures var scan := After(input, pairs, i, k);
      && InBounds(input, Places(|input.probes|, i, k))
      && scan.proofs == Start(input, pairs).proofs + ProbeProofs(input, pairs, Places(|input.probes|, i, k))
      && scan.cells == BlockCells(input, Places(|input.probes|, i, k)) && scan.missing == [] && scan.reject.None?
    decreases i, k
  {
    hide ScanCell, ProofAt, Clean, Start, FromReplay, BlockCells, ProbeProofs;
    if k > 0 {
      CleanScan(input, pairs, i, k - 1);
      assert Cellular(input, pairs, i, k - 1) && Earlier(i, k - 1, i, k);
      CleanStep(input, pairs, i, k - 1, After(input, pairs, i, k - 1));
      PlacesSnoc(input, pairs, Places(|input.probes|, i, k - 1), i, k - 1);
    } else if i > 0 {
      CleanScan(input, pairs, i - 1, |input.probes|);
    } else {
      NoPlaces(input, pairs);
    }
  }

  lemma {:induction false} PlacesSnoc(input: Input, pairs: seq<Pair>, places: seq<(nat, nat)>, a: nat, b: nat)
    requires Cellular(input, pairs, a, b) && InBounds(input, places)
    ensures InBounds(input, places + [(a, b)])
    ensures ProbeProofs(input, pairs, places + [(a, b)]) ==
      ProbeProofs(input, pairs, places) + [ProofAt(input, pairs, a, b)]
    ensures BlockCells(input, places + [(a, b)]) == BlockCells(input, places) + if input.probes[b].block then
      [CellOf(input, a, b)] else []
  {
  }

  lemma {:induction false} NoPlaces(input: Input, pairs: seq<Pair>)
    requires GoodPairs(input, pairs)
    ensures InBounds(input, []) && ProbeProofs(input, pairs, []) == [] && BlockCells(input, []) == []
    ensures var start := Start(input, pairs);
      start.proofs + [] == start.proofs && start.cells == [] && start.missing == [] && start.reject.None?
  {
  }

  lemma {:induction false} CleanStep(input: Input, pairs: seq<Pair>, a: nat, b: nat, before: Scan)
    requires Cellular(input, pairs, a, b) && Clean(input, pairs, a, b) && before.reject.None?
    ensures var scan := ScanCell(input, input.scenarios[a].id, pairs[a], input.probes[b], before);
      && scan.proofs == before.proofs + [ProofAt(input, pairs, a, b)]
      && scan.cells == before.cells + (if input.probes[b].block then [CellOf(input, a, b)] else [])
      && scan.missing == before.missing && scan.reject.None?
  {
    hide Evaluate, FromReplay;
    EvaluateShape(input.probes[b].check, pairs[a].baseline);
    EvaluateShape(input.probes[b].check, pairs[a].candidate);
  }

  /** A cell that is not clean leaves a mark, and marks are never erased. */
  lemma {:induction false} DirtyScan(input: Input, pairs: seq<Pair>, i: nat, k: nat)
    requires GoodPairs(input, pairs) && InTable(input, pairs, i, k) && !AllClean(input, pairs, i, k)
    ensures After(input, pairs, i, k).reject.Some? || After(input, pairs, i, k).missing != []
    decreases i, k
  {
    hide ScanCell, Clean;
    if k > 0 {
      var before := After(input, pairs, i, k - 1);
      if !AllClean(input, pairs, i, k - 1) { DirtyScan(input, pairs, i, k - 1); }
      if before.reject.None? {
        assert Cellular(input, pairs, i, k - 1);
        DirtyStep(input, pairs, i, k - 1, before);
      }
    } else if i > 0 {
      DirtyScan(input, pairs, i - 1, |input.probes|);
    }
  }

  lemma {:induction false} DirtyStep(input: Input, pairs: seq<Pair>, a: nat, b: nat, before: Scan)
    requires Cellular(input, pairs, a, b)
    requires before.missing != [] || !Clean(input, pairs, a, b)
    ensures var scan := ScanCell(input, input.scenarios[a].id, pairs[a], input.probes[b], before);
      scan.reject.Some? || scan.missing != []
  {
  }

  /** With no fault in the table, the only rejection is a baseline that breaches a blocking probe. */
  lemma {:induction false} FaultlessScan(input: Input, pairs: seq<Pair>, i: nat, k: nat)
    requires GoodPairs(input, pairs) && InTable(input, pairs, i, k)
    requires forall a: nat, b: nat :: Cellular(input, pairs, a, b) ==> CellOf(input, a, b) !in input.faults
    ensures After(input, pairs, i, k).reject in {None, Some(BaselineBreaches)}
    ensures After(input, pairs, i, k).reject.None? ==> After(input, pairs, i, k).missing == []
    decreases i, k
  {
    hide ScanCell, FromReplay, CellOf, Start;
    if k > 0 {
      FaultlessScan(input, pairs, i, k - 1);
      assert Cellular(input, pairs, i, k - 1);
      FaultlessStep(input, pairs, i, k - 1, After(input, pairs, i, k - 1));
    } else if i > 0 {
      FaultlessScan(input, pairs, i - 1, |input.probes|);
    } else {
      NoPlaces(input, pairs);
    }
  }

  lemma {:induction false} FaultlessStep(input: Input, pairs: seq<Pair>, a: nat, b: nat, before: Scan)
    requires Cellular(input, pairs, a, b) && CellOf(input, a, b) !in input.faults
    ensures var scan := ScanCell(input, input.scenarios[a].id, pairs[a], input.probes[b], before);
      && (before.reject.None? ==> scan.reject in {None, Some(BaselineBreaches)})
      && (scan.reject.None? && before.missing == [] ==> scan.missing == [])
  {
    hide Evaluate, FromReplay;
    EvaluateShape(input.probes[b].check, pairs[a].baseline);
    EvaluateShape(input.probes[b].check, pairs[a].candidate);
  }

  // ---------- the verdict ----------

  ghost predicate CandidateHolds(input: Input, pairs: seq<Pair>)
    requires GoodPairs(input, pairs)
  {
    forall a: nat, b: nat :: Cellular(input, pairs, a, b) && input.probes[b].block ==>
      Holds(input.probes[b].check, pairs[a].candidate)
  }

  function Table(input: Input): seq<(nat, nat)> {
    Places(|input.probes|, |input.scenarios|, 0)
  }

  lemma {:induction false} TableMembers(input: Input)
    ensures InBounds(input, Table(input))
    ensures forall a: nat, b: nat :: (a, b) in Table(input) <==> a < |input.scenarios| && b < |input.probes|
    ensures forall x, y :: 0 <= x < y < |Table(input)| ==> Table(input)[x] != Table(input)[y]
  {
    var m, n, table := |input.probes|, |input.scenarios|, Table(input);
    PlacesMembers(m, n, 0);
    forall x | 0 <= x < |table| ensures table[x].0 < n && table[x].1 < m {
      assert (table[x].0, table[x].1) in table;
    }
  }

  /** The probe proofs and the block cells of a whole table. */
  lemma {:induction false} TableContents(input: Input, pairs: seq<Pair>)
    requires ValidInput(input) && GoodPairs(input, pairs) && InBounds(input, Table(input))
    ensures forall a: nat, b: nat :: Cellular(input, pairs, a, b) ==>
      ProofAt(input, pairs, a, b) in ProbeProofs(input, pairs, Table(input))
    ensures forall p :: p in ProbeProofs(input, pairs, Table(input)) ==>
      exists a: nat, b: nat :: Cellular(input, pairs, a, b) && p == ProofAt(input, pairs, a, b)
    ensures forall a: nat, b: nat :: Cellular(input, pairs, a, b) && input.probes[b].block ==>
      CellOf(input, a, b) in BlockCells(input, Table(input))
    ensures forall c :: c in BlockCells(input, Table(input)) ==>
      exists a: nat, b: nat :: Cellular(input, pairs, a, b) && input.probes[b].block && c == CellOf(input, a, b)
    ensures !HasDuplicates(BlockCells(input, Table(input)))
  {
    hide ProofAt, ValidInput, CellOf, FromReplay;
    var table := Table(input);
    TableMembers(input);
    BlockCellMembers(input, table);
    BlockCellsDistinct(input, table);
    forall a: nat, b: nat | Cellular(input, pairs, a, b)
      ensures ProofAt(input, pairs, a, b) in ProbeProofs(input, pairs, table)
      ensures input.probes[b].block ==> CellOf(input, a, b) in BlockCells(input, table)
    {
      assert (a, b) in table;
      var x :| 0 <= x < |table| && table[x] == (a, b);
      assert ProbeProofs(input, pairs, table)[x] == ProofAt(input, pairs, a, b);
    }
    forall p | p in ProbeProofs(input, pairs, table)
      ensures exists a: nat, b: nat :: Cellular(input, pairs, a, b) && p == ProofAt(input, pairs, a, b)
    {
      var x :| 0 <= x < |table| && p == ProbeProofs(input, pairs, table)[x];
      assert Cellular(input, pairs, table[x].0, table[x].1);
    }
    forall c | c in BlockCells(input, table)
      ensures exists a: nat, b: nat :: Cellular(input, pairs, a, b) && input.probes[b].block && c == CellOf(input, a, b)
    {
      var x :| 0 <= x < |table| && input.probes[table[x].1].block && c == CellOf(input, table[x].0, table[x].1);
      assert Cellular(input, pairs, table[x].0, table[x].1);
    }
  }

  /** What one cell's proof contributes to the decision. */
  lemma {:induction false} ProofAtFacts(input: Input, pairs: seq<Pair>, a: nat, b: nat)
    requires Cellular(input, pairs, a, b)
    ensures var p := ProofAt(input, pairs, a, b);
      && p.kind == Probe && p.verdictBearing == input.probes[b].block && CapOf(p).None?
      && (Breaching(p) <==> input.probes[b].block && !Holds(input.probes[b].check, pairs[a].candidate))
      && (input.probes[b].block ==> Covers(p, CellOf(input, a, b)))
  {
    hide Evaluate;
    EvaluateShape(input.probes[b].check, pairs[a].baseline);
    EvaluateShape(input.probes[b].check, pairs[a].candidate);
    var p := ProofAt(input, pairs, a, b);
    assert p.assertions[0] in p.assertions;
  }

  ghost predicate HasKind(proofs: seq<Proof>, kind: ProofKind) {
    exists p :: p in proofs && p.kind == kind && p.verdictBearing
  }

  /** The kinds every completed run supplies besides its probes. */
  predicate FixedKind(kind: ProofKind) {
    kind in {PackageCanonical, SpecCompile, ReplayRun, ReplayWellformed, ProofKind.Coverage, BaselineCalibration,
             CandidateAbsolute}
  }

  lemma {:induction false} FixedProofs(input: Input, pairs: seq<Pair>, coverage: Manifest, base: seq<Assertion>,
                                       cand: seq<Assertion>)
    ensures var fixed := OpeningProofs(input) + ReplayProofs(input, pairs) + ClosingProofs(input, coverage, base, cand);
      && (forall p :: p in fixed ==> p.kind != Probe)
      && (forall kind :: FixedKind(kind) ==> HasKind(fixed, kind))
  {
    hide OpeningProofs, ReplayProofs, ClosingProofs, HasKind;
    OpeningKinds(input);
    ReplayKinds(input, pairs);
    ClosingKinds(input, coverage, base, cand);
    forall kind | FixedKind(kind) ensures HasKind(OpeningProofs(input) + ReplayProofs(input, pairs) +
                                                  ClosingProofs(input, coverage, base, cand), kind) {
      KindOfPart(OpeningProofs(input), ReplayProofs(input, pairs), ClosingProofs(input, coverage, base, cand), kind);
    }
  }

  lemma {:induction false} KindOfPart(a: seq<Proof>, b: seq<Proof>, c: seq<Proof>, kind: ProofKind)
    requires HasKind(a, kind) || HasKind(b, kind) || HasKind(c, kind)
    ensures HasKind(a + b + c, kind)
  {
    var p :| (p in a || p in b || p in c) && p.verdictBearing && p.kind == kind;
    assert p in a + b + c;
  }

  lemma {:induction false} OpeningKinds(input: Input)
    ensures forall p :: p in OpeningProofs(input) ==> p.kind != Probe
    ensures HasKind(OpeningProofs(input), PackageCanonical) && HasKind(OpeningProofs(input), SpecCompile)
  {
    hide PackageArtifact;
    var ps := OpeningProofs(input);
    assert ps[0] in ps && ps[2] in ps;
  }

  lemma {:induction false} ReplayKinds(input: Input, pairs: seq<Pair>)
    ensures forall p :: p in ReplayProofs(input, pairs) ==> p.kind != Probe
    ensures HasKind(ReplayProofs(input, pairs), ReplayRun) && HasKind(ReplayProofs(input, pairs), ReplayWellformed)
  {
    hide WellformedAll, EncodeTraces;
    var ps := ReplayProofs(input, pairs);
    assert ps[0] in ps && ps[1] in ps;
  }

  lemma {:induction false} ClosingKinds(input: Input, coverage: Manifest, base: seq<Assertion>, cand: seq<Assertion>)
    ensures var ps := ClosingProofs(input, coverage, base, cand);
      && (forall p :: p in ps ==> p.kind != Probe)
      && HasKind(ps, ProofKind.Coverage) && HasKind(ps, BaselineCalibration) && HasKind(ps, CandidateAbsolute)
  {
    hide Absolute, EncodeManifest, EncodeAssertions;
    var ps := ClosingProofs(input, coverage, base, cand);
    assert ps[0] in ps && ps[1] in ps && ps[2] in ps;
  }

  /** The decision a clean scan leads to, with its seven other proofs around the probe proofs. */
  lemma {:induction false} CleanDecision(input: Input, pairs: seq<Pair>, fixed: seq<Proof>, rest: seq<Proof>,
                                         coverage: Manifest)
    requires ValidInput(input) && GoodPairs(input, pairs) && InBounds(input, Table(input))
    requires coverage == Manifest(BlockCells(input, Table(input)), true, [])
    requires forall p :: p in fixed + rest ==> p.kind != Probe
    requires forall kind :: FixedKind(kind) ==> HasKind(fixed + rest, kind)
    ensures Decide(fixed + ProbeProofs(input, pairs, Table(input)) + rest, coverage,
                   Context(input.chain.status, None)).status
         == if CandidateHolds(input, pairs) then Pass else Withheld
  {
    hide *;
    var probes := ProbeProofs(input, pairs, Table(input));
    var proofs := fixed + probes + rest;
    TableContents(input, pairs);
    TableFactsHold(input, pairs, fixed, rest);
    BlockingCell(input, pairs, fixed, rest);
    CoverAll(input, pairs, proofs, coverage);
    BreachAmong(input, pairs, proofs, probes);
    PassExactly(proofs, coverage, Context(input.chain.status, None));
    WithheldExactly(proofs, coverage, Context(input.chain.status, None));
  }

  ghost predicate TableFacts(input: Input, pairs: seq<Pair>, proofs: seq<Proof>)
    requires GoodPairs(input, pairs)
  {
    forall a: nat, b: nat :: Cellular(input, pairs, a, b) ==>
      var p := ProofAt(input, pairs, a, b);
      && p in proofs && CapOf(p).None?
      && (Breaching(p) <==> input.probes[b].block && !Holds(input.probes[b].check, pairs[a].candidate))
      && (input.probes[b].block ==> Covers(p, CellOf(input, a, b)))
  }

  lemma {:induction false} TableFactsHold(input: Input, pairs: seq<Pair>, fixed: seq<Proof>, rest: seq<Proof>)
    requires ValidInput(input) && GoodPairs(input, pairs) && InBounds(input, Table(input))
    requires forall p :: p in fixed + rest ==> p.kind != Probe
    ensures var probes := ProbeProofs(input, pairs, Table(input));
      && TableFacts(input, pairs, fixed + probes + rest)
      && forall p :: p in fixed + probes + rest && p.kind == Probe ==> p in probes
  {
    hide ProofAt, Covers, CapOf, Breaching, Holds, FromReplay, ProbeProofs, ValidInput, InBounds, Table;
    var probes := ProbeProofs(input, pairs, Table(input));
    TableContents(input, pairs);
    forall a: nat, b: nat | Cellular(input, pairs, a, b)
      ensures var p := ProofAt(input, pairs, a, b);
        && p in fixed + probes + rest && CapOf(p).None?
        && (Breaching(p) <==> input.probes[b].block && !Holds(input.probes[b].check, pairs[a].candidate))
        && (input.probes[b].block ==> Covers(p, CellOf(input, a, b)))
    {
      ProofAtFacts(input, pairs, a, b);
      assert ProofAt(input, pairs, a, b) in probes;
    }
  }

  lemma {:induction false} BlockingCell(input: Input, pairs: seq<Pair>, fixed: seq<Proof>, rest: seq<Proof>)
    requires ValidInput(input) && GoodPairs(input, pairs) && InBounds(input, Table(input))
    requires forall kind :: FixedKind(kind) ==> HasKind(fixed + rest, kind)
    ensures BlockCells(input, Table(input)) != []
    ensures var proofs := fixed + ProbeProofs(input, pairs, Table(input)) + rest;
      KindsPresent(proofs, RequiredKinds(Pass)) && KindsPresent(proofs, RequiredKinds(Withheld))
  {
    hide ProofAt, FromReplay, ProbeProofs, BlockCells, KindsPresent, RequiredKinds, FixedKind, HasKind, InBounds, Table;
    TableContents(input, pairs);
    var b :| 0 <= b < |input.probes| && input.probes[b].block;
    assert Cellular(input, pairs, 0, b) && CellOf(input, 0, b) in BlockCells(input, Table(input));
    ProofAtFacts(input, pairs, 0, b);
    KindsCovered(fixed + ProbeProofs(input, pairs, Table(input)) + rest, fixed + rest, ProofAt(input, pairs, 0, b));
  }

  lemma {:induction false} CoverAll(input: Input, pairs: seq<Pair>, proofs: seq<Proof>, coverage: Manifest)
    requires GoodPairs(input, pairs) && TableFacts(input, pairs, proofs)
    requires coverage.complete && coverage.cells != [] && !HasDuplicates(coverage.cells)
    requires forall c :: c in coverage.cells ==>
      exists a: nat, b: nat :: Cellular(input, pairs, a, b) && input.probes[b].block && c == CellOf(input, a, b)
    ensures FullyCovered(proofs, coverage)
  {
  }

  lemma {:induction false} BreachAmong(input: Input, pairs: seq<Pair>, proofs: seq<Proof>, probes: seq<Proof>)
    requires GoodPairs(input, pairs) && TableFacts(input, pairs, proofs)
    requires forall p :: p in proofs && p.kind == Probe ==> p in probes
    requires forall p :: p in probes ==>
      exists a: nat, b: nat :: Cellular(input, pairs, a, b) && p == ProofAt(input, pairs, a, b)
    ensures HasBlockBreach(proofs) <==> !CandidateHolds(input, pairs)
    ensures HasBlockBreach(proofs) ==> !EveryBreachReduces(proofs)
  {
  }

  lemma {:induction false} KindsCovered(proofs: seq<Proof>, others: seq<Proof>, probe: Proof)
    requires (forall p :: p in others ==> p in proofs) && probe in proofs && probe.kind == Probe && probe.verdictBearing
    requires forall kind :: FixedKind(kind) ==> HasKind(others, kind)
    ensures KindsPresent(proofs, RequiredKinds(Pass)) && KindsPresent(proofs, RequiredKinds(Withheld))
  {
    hide IdsOf;
    forall kind | kind in RequiredKinds(Pass) + RequiredKinds(Withheld) && kind != Decision
      ensures IdsOf(proofs, kind) != multiset{}
    {
      IdsOfMembers(proofs, kind);
      if kind == Probe {
        assert probe.id in IdsOf(proofs, kind);
      } else {
        assert FixedKind(kind);
        var p :| p in others && p.kind == kind && p.verdictBearing;
        assert p.id in IdsOf(proofs, kind);
      }
    }
  }

  /** A run whose table is clean ends in PASS or WITHHELD, as the candidate's probes hold or not. */
  lemma {:induction false} CleanVerdict(input: Input, pairs: seq<Pair>)
    requires ValidInput(input) && GoodPairs(input, pairs) && AllClean(input, pairs, |pairs|, 0)
    ensures Conclude(input, pairs, After(input, pairs, |pairs|, 0)).envelope.status
         == if CandidateHolds(input, pairs) then Pass else Withheld
  {
    hide Decide, ScanCell, ProofAt, ProbeProofs, BlockCells, OpeningProofs, ReplayProofs, ClosingProofs, After,
      FromReplay, Clean, CandidateHolds;
    var scan := After(input, pairs, |pairs|, 0);
    CleanScan(input, pairs, |pairs|, 0);
    var coverage := Manifest(scan.cells, true, []);
    var closing := ClosingProofs(input, coverage, scan.baseline, scan.candidate);
    FixedProofs(input, pairs, coverage, scan.baseline, scan.candidate);
    CleanDecision(input, pairs, OpeningProofs(input) + ReplayProofs(input, pairs), closing, coverage);
  }

  /** Otherwise the run ends in REJECT or UNVERIFIED. */
  lemma {:induction false} DirtyVerdict(input: Input, pairs: seq<Pair>)
    requires GoodPairs(input, pairs) && !AllClean(input, pairs, |pairs|, 0)
    ensures Conclude(input, pairs, After(input, pairs, |pairs|, 0)).envelope.status in {Reject, UnverifiedNoVerdict}
  {
    hide ScanCell, AllClean, After, OpeningProofs, ReplayProofs, ClosingProofs, FromReplay;
    DirtyScan(input, pairs, |pairs|, 0);
    var run := Conclude(input, pairs, After(input, pairs, |pairs|, 0));
    CheckedComplete(run.proofs, run.coverage);
  }

  // ---------- the end-to-end theorems ----------

  /** Nothing was refused before the probes, both roles replayed, and every probe delivered results. */
  ghost predicate Delivered(input: Input)
    requires ValidInput(input)
  {
    && EarlyReject(input).None? && Replays(input, |input.scenarios|).Ok?
    && forall a: nat, b: nat :: a < |input.scenarios| && b < |input.probes| ==> CellOf(input, a, b) !in input.faults
  }

  ghost predicate Meets(input: Input, traces: seq<Trace>) {
    forall a: nat, b: nat :: a < |traces| && b < |input.probes| && input.probes[b].block ==>
      Meaning(input.probes[b].check, traces[a])
  }

  function Baselines(pairs: seq<Pair>): seq<Trace> {
    seq(|pairs|, i requires 0 <= i < |pairs| => pairs[i].baseline)
  }

  function Candidates(pairs: seq<Pair>): seq<Trace> {
    seq(|pairs|, i requires 0 <= i < |pairs| => pairs[i].candidate)
  }

  lemma {:induction false} HoldsIsMeaning(check: Check, trace: Trace, scenarioId: string)
    requires ValidCheck(check) && FromReplay(trace, scenarioId)
    ensures Holds(check, trace) <==> Meaning(check, trace)
  {
    var cfg, bars, signals :| Replayed(trace, cfg, bars, signals);
    ProbeMeaning(check, trace, cfg, bars, signals);
  }

  lemma {:induction false} MeetsIsHolds(input: Input, pairs: seq<Pair>)
    requires ValidInput(input) && GoodPairs(input, pairs)
    ensures Meets(input, Candidates(pairs)) <==> CandidateHolds(input, pairs)
    ensures Meets(input, Baselines(pairs)) <==>
      forall a: nat, b: nat :: Cellular(input, pairs, a, b) && input.probes[b].block ==>
        Holds(input.probes[b].check, pairs[a].baseline)
  {
    hide Holds, Meaning, FromReplay, ValidCheck;
    forall a: nat, b: nat | Cellular(input, pairs, a, b)
      ensures Holds(input.probes[b].check, pairs[a].candidate) <==> Meaning(input.probes[b].check, Candidates(pairs)[a])
      ensures Holds(input.probes[b].check, pairs[a].baseline) <==> Meaning(input.probes[b].check, Baselines(pairs)[a])
    {
      HoldsIsMeaning(input.probes[b].check, pairs[a].candidate, input.scenarios[a].id);
      HoldsIsMeaning(input.probes[b].check, pairs[a].baseline, input.scenarios[a].id);
    }
  }

  /** The verdict of a run by what its replays came to. */
  lemma {:induction false} DeliveredVerdict(input: Input)
    requires ValidInput(input)
    ensures RunOf(input).envelope.status != ReduceSize
    ensures RunOf(input).envelope.status == Pass <==> (
      && Delivered(input)
      && Meets(input, Baselines(Replays(input, |input.scenarios|).value))
      && Meets(input, Candidates(Replays(input, |input.scenarios|).value)))
    ensures RunOf(input).envelope.status == Withheld <==> (
      && Delivered(input)
      && Meets(input, Baselines(Replays(input, |input.scenarios|).value))
      && !Meets(input, Candidates(Replays(input, |input.scenarios|).value)))
  {
    hide Meets, Replays, After, AllClean, CandidateHolds, Conclude, OpeningProofs, FromReplay, Decide;
    if EarlyReject(input).None? && Replays(input, |input.scenarios|).Ok? {
      var pairs := Replays(input, |input.scenarios|).value;
      ReplaysAreGood(input, |input.scenarios|);
      assert input.scenarios[..|input.scenarios|] == input.scenarios;
      MeetsIsHolds(input, pairs);
      CleanIsDelivered(input, pairs);
      if AllClean(input, pairs, |pairs|, 0) {
        CleanVerdict(input, pairs);
      } else {
        DirtyVerdict(input, pairs);
      }
    } else {
      EarlyRejection(input);
    }
  }

  // ---------- what was replayed ----------

  /** The worker's signals for this scenario, replayed on its bars with this package's leverage and the run's costs. */
  ghost predicate Traced(input: Input, s: Scenario, worker: Worker, package: Package, trace: Trace)
    requires ValidBars(s.bars)
  {
    && worker.Signals? && !package.rawFloat && input.fillModel == "next_bar_open"
    && package.leverage.Some? && -1000.0 <= package.leverage.value <= 1000.0
    && input.feeBps.Some? && 0.0 <= input.feeBps.value <= 10_000.0
    && input.slippageBps.Some? && 0.0 <= input.slippageBps.value <= 10_000.0
    && IsReplay(trace, s.id, s.bars, package.leverage.value, input.feeBps.value, input.slippageBps.value, worker.values)
  }

  /** One pair of traces for every scenario: of the baseline's signals under the baseline's package, and of the
      candidate's signals under the candidate's package. */
  ghost predicate Ran(input: Input, pairs: seq<Pair>)
    requires ValidInput(input)
  {
    && |pairs| == |input.scenarios|
    && forall i :: 0 <= i < |pairs| ==>
         var s := input.scenarios[i];
         && Traced(input, s, s.baseline, input.baselinePackage, pairs[i].baseline)
         && Traced(input, s, s.candidate, input.candidatePackage, pairs[i].candidate)
  }

  lemma {:induction false} TracedExactly(input: Input, s: Scenario, worker: Worker, package: Package, trace: Trace)
    requires ValidBars(s.bars)
    ensures Traced(input, s, worker, package, trace) <==> ReplayRole(input, s, worker, package) == Ok(trace)
  {
    hide IsReplay, ReplayOf, ValidBars;
    if worker.Signals? { ReplayExactly(s.id, s.bars, ConfigFor(input, package), worker.values, trace); }
  }

  lemma {:induction false} RanUpTo(input: Input, pairs: seq<Pair>, k: nat)
    requires ValidInput(input) && k <= |pairs| == |input.scenarios| && Ran(input, pairs)
    ensures Replays(input, k) == Ok(pairs[..k])
  {
    hide Traced, ReplayRole;
    if k > 0 {
      RanUpTo(input, pairs, k - 1);
      var s := input.scenarios[k - 1];
      TracedExactly(input, s, s.baseline, input.baselinePackage, pairs[k - 1].baseline);
      TracedExactly(input, s, s.candidate, input.candidatePackage, pairs[k - 1].candidate);
      assert pairs[..k - 1] + [pairs[k - 1]] == pairs[..k];
    }
  }

  lemma {:induction false} ReplaysRan(input: Input, k: nat)
    requires ValidInput(input) && k <= |input.scenarios| && Replays(input, k).Ok?
    ensures forall i :: 0 <= i < k ==>
      var s, pair := input.scenarios[i], Replays(input, k).value[i];
      && Traced(input, s, s.baseline, input.baselinePackage, pair.baseline)
      && Traced(input, s, s.candidate, input.candidatePackage, pair.candidate)
  {
    hide Traced, ReplayRole;
    if k > 0 {
      ReplaysRan(input, k - 1);
      var s, pair := input.scenarios[k - 1], Replays(input, k).value[k - 1];
      TracedExactly(input, s, s.baseline, input.baselinePackage, pair.baseline);
      TracedExactly(input, s, s.candidate, input.candidatePackage, pair.candidate);
    }
  }

  /** The replays of a run are exactly those traces. */
  lemma {:induction false} RanExactly(input: Input, pairs: seq<Pair>)
    requires ValidInput(input)
    ensures Ran(input, pairs) <==> Replays(input, |input.scenarios|) == Ok(pairs)
  {
    hide Traced, Replays;
    if Ran(input, pairs) {
      RanUpTo(input, pairs, |pairs|);
      assert pairs[..|pairs|] == pairs;
    }
    if Replays(input, |input.scenarios|) == Ok(pairs) { ReplaysRan(input, |input.scenarios|); }
  }

  /** The identity lock loads, the edit is of this very pair, the baseline's chain has no error, and every probe can
      be evaluated. */
  ghost predicate Unimpeded(input: Input) {
    && input.locked && input.chain.error.None?
    && (input.editDiff.Some? ==>
          input.editDiff.value ==
          HashObj(Rec("pair", [Hash(input.identity.baselineHash), Hash(input.identity.candidateHash)])))
    && forall s, p :: s in input.scenarios && p in input.probes ==> (s.id, p.id) !in input.faults
  }

  lemma {:induction false} DeliveredExactly(input: Input)
    requires ValidInput(input)
    ensures Delivered(input) <==> Unimpeded(input) && exists pairs :: Ran(input, pairs)
    ensures Delivered(input) ==> Ran(input, Replays(input, |input.scenarios|).value)
    ensures forall pairs :: Ran(input, pairs) ==> Replays(input, |input.scenarios|) == Ok(pairs)
  {
    hide Ran, Replays;
    forall pairs ensures Ran(input, pairs) <==> Replays(input, |input.scenarios|) == Ok(pairs) {
      RanExactly(input, pairs);
    }
    if Delivered(input) {
      forall s, p | s in input.scenarios && p in input.probes ensures (s.id, p.id) !in input.faults {
        var a :| 0 <= a < |input.scenarios| && input.scenarios[a] == s;
        var b :| 0 <= b < |input.probes| && input.probes[b] == p;
        assert CellOf(input, a, b) == (s.id, p.id);
      }
    }
  }

  /** PASS exactly when nothing impedes the run, and on its replays - the candidate's signals at the candidate's
      leverage, the baseline's at its own - every blocking probe's meaning holds of the NAV and the positions of both
      roles in every scenario; WITHHELD exactly when only the candidate falls short; REDUCE_SIZE never. */
  lemma {:induction false} EndToEnd(input: Input)
    requires ValidInput(input)
    ensures var run := RunOf(input);
      && run.envelope.status != ReduceSize
      && (run.envelope.status == Pass <==>
            Unimpeded(input) && Ran(input, run.pairs)
            && Meets(input, Baselines(run.pairs)) && Meets(input, Candidates(run.pairs)))
      && (run.envelope.status == Withheld <==>
            Unimpeded(input) && Ran(input, run.pairs)
            && Meets(input, Baselines(run.pairs)) && !Meets(input, Candidates(run.pairs)))
      && (run.envelope.status == Pass ==>
            && run.envelope.tier == Allow
            && run.envelope.reason == if input.chain.status == GenesisChain then BaselineGenesis else ReasonPass)
      && (run.envelope.status == Withheld ==> run.envelope.tier == Block && run.envelope.reason == NewBlockBreach)
      && ((exists pairs :: Ran(input, pairs)) && Unimpeded(input) ==> Ran(input, run.pairs))
  {
    hide Ran, Unimpeded, Delivered, Meets, Replays, Decide, OpeningProofs, Refused, Baselines, Candidates, ValidInput;
    DeliveredExactly(input);
    DeliveredVerdict(input);
    RunPairs(input);
    StatusDetails(input);
  }

  lemma {:induction false} RunPairs(input: Input)
    requires ValidInput(input)
    ensures Delivered(input) ==> RunOf(input).pairs == Replays(input, |input.scenarios|).value
  {
    hide Replays, After, Decide, OpeningProofs, ClosingProofs, Refused;
  }

  /** Tier and reason come with the status. */
  lemma {:induction false} StatusDetails(input: Input)
    requires ValidInput(input)
    ensures var e := RunOf(input).envelope;
      && (e.status == Pass ==>
            e.tier == Allow && e.reason == if input.chain.status == GenesisChain then BaselineGenesis else ReasonPass)
      && (e.status == Withheld ==> e.tier == Block && e.reason == NewBlockBreach)
      && (e.status == Reject ==> e.tier == Block)
      && (e.status == UnverifiedNoVerdict ==> e.tier == HumanReview)
  {
    hide Replays, After, Decide, OpeningProofs, ClosingProofs, Refused, ValidInput, EarlyReject;
    forall proofs, coverage, reject: Option<ReasonCode>
      ensures var e := Decide(proofs, coverage, Context(input.chain.status, reject));
        && (e.status == Pass ==>
              e.tier == Allow && e.reason == if input.chain.status == GenesisChain then BaselineGenesis else ReasonPass)
        && (e.status == Withheld ==> e.tier == Block && e.reason == NewBlockBreach)
        && (e.status == Reject ==> e.tier == Block)
        && (e.status == UnverifiedNoVerdict ==> e.tier == HumanReview)
    {
      TierAndReason(proofs, coverage, Context(input.chain.status, reject));
    }
  }

  lemma {:induction false} EarlyRejection(input: Input)
    requires ValidInput(input) && !(EarlyReject(input).None? && Replays(input, |input.scenarios|).Ok?)
    ensures RunOf(input).envelope.status == Reject
  {
    hide Replays, Checked, KindsPresent, OpeningProofs, RequiredIds;
  }

  /** What stops a run early is its reason; a run that gets a receipt had an identity lock, an edit from this very
      baseline to this very candidate, and no error in the baseline chain. */
  lemma {:induction false} StoppedEarly(input: Input)
    requires ValidInput(input)
    ensures EarlyReject(input).Some? ==>
      RunOf(input).envelope.status == Reject && Some(RunOf(input).envelope.reason) == EarlyReject(input)
    ensures RunOf(input).envelope.status in {Pass, Withheld} ==>
      && input.locked && input.chain.error.None?
      && (input.editDiff.Some? ==> input.editDiff.value == EditDiff(input.identity))
  {
    hide Replays, Checked, KindsPresent, OpeningProofs, RequiredIds;
    if EarlyReject(input).Some? { EarlyRejection(input); }
  }

  lemma {:induction false} CleanIsDelivered(input: Input, pairs: seq<Pair>)
    requires ValidInput(input) && GoodPairs(input, pairs)
    requires EarlyReject(input).None? && Replays(input, |input.scenarios|) == Ok(pairs)
    ensures AllClean(input, pairs, |pairs|, 0) <==>
      && Delivered(input)
      && (forall a: nat, b: nat :: Cellular(input, pairs, a, b) && input.probes[b].block ==>
          Holds(input.probes[b].check, pairs[a].baseline))
  {
    hide Holds, FromReplay, Replays;
    forall a: nat, b: nat | a < |input.scenarios| && b < |input.probes|
      ensures Cellular(input, pairs, a, b) && Earlier(a, b, |pairs|, 0)
      ensures Clean(input, pairs, a, b) <==>
        CellOf(input, a, b) !in input.faults &&
          (input.probes[b].block ==> Holds(input.probes[b].check, pairs[a].baseline))
    {
    }
  }

  /** A delivered run whose baseline misses a blocking probe is rejected for that very reason. */
  lemma {:induction false} BaselineBreachRejects(input: Input)
    requires ValidInput(input) && Delivered(input)
    ensures !Meets(input, Baselines(Replays(input, |input.scenarios|).value)) <==>
      RunOf(input).envelope.status == Reject && RunOf(input).envelope.reason == BaselineBreaches
  {
    hide Meets, Replays, After, AllClean, CandidateHolds, OpeningProofs, FromReplay, ReplayProofs, ClosingProofs,
      Conclude, GoodPairs;
    var pairs := Replays(input, |input.scenarios|).value;
    ReplaysAreGood(input, |input.scenarios|);
    assert input.scenarios[..|input.scenarios|] == input.scenarios;
    MeetsIsHolds(input, pairs);
    CleanIsDelivered(input, pairs);
    FaultlessScan(input, pairs, |pairs|, 0);
    var scan := After(input, pairs, |pairs|, 0);
    assert RunOf(input) == Conclude(input, pairs, scan);
    if AllClean(input, pairs, |pairs|, 0) {
      CleanVerdict(input, pairs);
    } else {
      DirtyScan(input, pairs, |pairs|, 0);
      RejectedVerdict(input, pairs, scan);
    }
  }

  lemma {:induction false} RejectedVerdict(input: Input, pairs: seq<Pair>, scan: Scan)
    requires scan.reject.Some?
    ensures var e := Conclude(input, pairs, scan).envelope;
      e.status == Reject && e.reason == scan.reject.value
  {
    hide Checked, RequiredIds, DecisionId, ScenarioCount, Refused, AllIds;
  }
}
