/** The receipt a run issues, checked by the verifier. */
module RoundTrip {
  import opened Wrappers
  import opened Models
  import opened Digests
  import opened Replay
  import opened Probes
  import opened ProofKernel
  import opened Runner
  import opened RunVerdict
  import opened Receipts
  import opened Encodings

  // ---------- encodings identify what they encode ----------

  lemma {:induction false} ResultEncodeInjective(r: ProbeResult, s: ProbeResult)
    requires EncodeResult(r) == EncodeResult(s)
    ensures r == s
  {
    hide EncodeAssertions;
    var x, y := EncodeResult(r).fields, EncodeResult(s).fields;
    assert x[0] == y[0] && x[1] == y[1] && x[2] == y[2];
    AssertionsEncodeInjective(r.assertions, s.assertions);
  }

  lemma {:induction false} ArtifactEncodeInjective(b1: ProbeResult, c1: ProbeResult, b2: ProbeResult, c2: ProbeResult)
    ensures ProbeArtifact(b1, c1) == ProbeArtifact(b2, c2) <==> b1 == b2 && c1 == c2
  {
    hide EncodeResult;
    if ProbeArtifact(b1, c1) == ProbeArtifact(b2, c2) {
      var x, y := ProbeArtifact(b1, c1).fields, ProbeArtifact(b2, c2).fields;
      assert x[0] == y[0] && x[1] == y[1];
      ResultEncodeInjective(b1, b2);
      ResultEncodeInjective(c1, c2);
    }
  }

  // ---------- the proofs of a clean run ----------

  const PREFIX_KINDS: seq<ProofKind> := [PackageCanonical, EditProvenance, SpecCompile, ReplayRun, ReplayWellformed]
  const SUFFIX_KINDS: seq<ProofKind> := [ProofKind.Coverage, BaselineCalibration, CandidateAbsolute]

  function Kinds(ps: seq<Proof>): seq<ProofKind> {
    seq(|ps|, i requires 0 <= i < |ps| => ps[i].kind)
  }

  /** Fixed proofs of eight different kinds around the probe proofs. */
  ghost predicate Layout(prefix: seq<Proof>, probes: seq<Proof>, suffix: seq<Proof>) {
    && Kinds(prefix) == PREFIX_KINDS && Kinds(suffix) == SUFFIX_KINDS
    && (forall p :: p in probes ==> p.kind == Probe)
    && (forall p :: p in prefix + probes + suffix ==> OwnId(p))
  }

  lemma {:induction false} ProofsOfAppend(a: seq<Proof>, b: seq<Proof>, kind: ProofKind)
    ensures ProofsOf(a + b, kind) == ProofsOf(a, kind) + ProofsOf(b, kind)
    decreases |b|
  {
    if b == [] {
      assert a + b == a;
    } else {
      ProofsOfAppend(a, b[..|b| - 1], kind);
      assert (a + b)[..|a + b| - 1] == a + b[..|b| - 1];
    }
  }

  lemma {:induction false} DistinctKindsOnce(ps: seq<Proof>, kind: ProofKind)
    requires !HasDuplicates(Kinds(ps))
    ensures |ProofsOf(ps, kind)| <= 1
  {
    if ps != [] {
      var front, last := ps[..|ps| - 1], ps[|ps| - 1];
      assert forall i :: 0 <= i < |front| ==> Kinds(front)[i] == Kinds(ps)[i];
      DistinctKindsOnce(front, kind);
      if last.kind == kind {
        assert forall p :: p in front ==> p.kind != kind by {
          forall i | 0 <= i < |front| ensures front[i].kind != kind {
            assert Kinds(ps)[i] == front[i].kind && Kinds(ps)[|ps| - 1] == kind;
          }
        }
        NoneOfKind(front, kind);
      }
    }
  }

  lemma {:induction false} LayoutOnce(prefix: seq<Proof>, probes: seq<Proof>, suffix: seq<Proof>, kind: ProofKind)
    requires Layout(prefix, probes, suffix) && kind != Probe
    ensures |ProofsOf(prefix + probes + suffix, kind)| <= 1
  {
    hide ProofsOf;
    ProofsOfAppend(prefix + probes, suffix, kind);
    ProofsOfAppend(prefix, probes, kind);
    NoneOfKind(probes, kind);
    ProofsOfAppend(prefix, suffix, kind);
    assert Kinds(prefix + suffix) == PREFIX_KINDS + SUFFIX_KINDS;
    DistinctKindsOnce(prefix + suffix, kind);
  }

  lemma {:induction false} FixedKindsDistinct()
    ensures var fixed := PREFIX_KINDS + SUFFIX_KINDS;
      && |fixed| == 8
      && (forall i :: 0 <= i < 8 ==> fixed[i] != Probe)
      && (forall i, j :: 0 <= i < j < 8 ==> fixed[i] != fixed[j])
  {
  }

  /** A proof outside the probe block is the only one of its kind. */
  lemma {:induction false} FixedPlace(fixed: seq<ProofKind>, ps: seq<Proof>, width: nat, i: nat, j: nat)
    requires |fixed| == 8 && |ps| == 8 + width && i < |ps| && j < |ps| && i != j
    requires forall x :: 0 <= x < 8 ==> fixed[x] != Probe
    requires forall x, y :: 0 <= x < y < 8 ==> fixed[x] != fixed[y]
    requires forall k {:trigger ps[k]} :: 0 <= k < |ps| ==>
      ps[k].kind == if k < 5 then fixed[k] else if k < 5 + width then Probe else fixed[k - width]
    requires ps[i].kind == ps[j].kind
    ensures 5 <= i < 5 + width
  {
  }

  /** Only probe proofs can share an id. */
  lemma {:induction false} LayoutDuplicates(prefix: seq<Proof>, probes: seq<Proof>, suffix: seq<Proof>)
    requires Layout(prefix, probes, suffix)
    ensures HasDuplicates(Ids(prefix + probes + suffix)) <==>
      exists x, y :: 0 <= x < y < |probes| && probes[x].artifactHash == probes[y].artifactHash
  {
    var ps := prefix + probes + suffix;
    var ids := Ids(ps);
    var fixed := PREFIX_KINDS + SUFFIX_KINDS;
    forall i | 0 <= i < |ps| ensures ids[i] == ProofId(ps[i].kind, ps[i].artifactHash) {
      assert ps[i] in ps;
    }
    forall i | 0 <= i < |ps|
      ensures i < 5 ==> ps[i].kind == fixed[i]
      ensures 5 <= i < 5 + |probes| ==> ps[i] == probes[i - 5] && ps[i].kind == Probe
      ensures 5 + |probes| <= i ==> ps[i].kind == fixed[i - |probes|]
    {
      assert |prefix| == |Kinds(prefix)| == 5;
      if i < 5 { assert Kinds(prefix)[i] == prefix[i].kind; }
      else if i < 5 + |probes| { assert probes[i - 5] in probes; }
      else { assert Kinds(suffix)[i - 5 - |probes|] == suffix[i - 5 - |probes|].kind; }
    }
    FixedKindsDistinct();
    assert |ps| == 8 + |probes| && forall k {:trigger ps[k]} :: 0 <= k < |ps| ==>
      ps[k].kind == if k < 5 then fixed[k] else if k < 5 + |probes| then Probe else fixed[k - |probes|] by {
      assert |suffix| == |Kinds(suffix)|;
    }
    if i, j :| 0 <= i < j < |ids| && ids[i] == ids[j] {
      assert ps[i].kind == ps[j].kind;
      assert 5 <= i < 5 + |probes| by { FixedPlace(fixed, ps, |probes|, i, j); }
      assert j < 5 + |probes| by { FixedPlace(fixed, ps, |probes|, j, i); }
      assert probes[i - 5].artifactHash == probes[j - 5].artifactHash;
    }
    if x, y :| 0 <= x < y < |probes| && probes[x].artifactHash == probes[y].artifactHash {
      assert ids[x + 5] == ids[y + 5];
    }
  }

  /** An issuing run has a clean table, so its proofs are laid out in full. */
  lemma {:induction false} IssuingRun(input: Input)
    requires ValidInput(input) && RunOf(input).envelope.status in {Pass, Withheld}
    ensures Delivered(input)
    ensures var run := RunOf(input);
      && GoodPairs(input, run.pairs) && AllClean(input, run.pairs, |run.pairs|, 0)
      && Replays(input, |input.scenarios|) == Ok(run.pairs)
      && run == Conclude(input, run.pairs, After(input, run.pairs, |run.pairs|, 0))
  {
    hide Meets, Replays, After, AllClean, CandidateHolds, OpeningProofs, ReplayProofs, ClosingProofs, FromReplay,
      Decide;
    DeliveredVerdict(input);
    var pairs := Replays(input, |input.scenarios|).value;
    ReplaysAreGood(input, |input.scenarios|);
    assert input.scenarios[..|input.scenarios|] == input.scenarios;
    MeetsIsHolds(input, pairs);
    CleanIsDelivered(input, pairs);
    assert RunOf(input) == Conclude(input, pairs, After(input, pairs, |pairs|, 0));
  }

  lemma {:induction false} RunLayout(input: Input)
    requires ValidInput(input) && RunOf(input).envelope.status in {Pass, Withheld}
    ensures GoodPairs(input, RunOf(input).pairs) && InBounds(input, Table(input))
    ensures var run := RunOf(input);
      exists suffix ::
        && run.proofs == OpeningProofs(input) + ReplayProofs(input, run.pairs) +
          ProbeProofs(input, run.pairs, Table(input)) + suffix
        && Layout(OpeningProofs(input) + ReplayProofs(input, run.pairs), ProbeProofs(input, run.pairs, Table(input)),
                  suffix)
        && (forall p :: p in suffix && p.kind == ProofKind.Coverage ==>
            p.artifactHash == HashObj(EncodeManifest(run.coverage)))
  {
    hide ProofAt, Decide, ScanCell, FromReplay, AllClean, RunOf, After, BlockCells, Replays, Delivered, Table,
      ProbeProofs,
         OpeningProofs, ReplayProofs, ClosingProofs, Layout, InBounds, EncodeManifest, Start;
    IssuingRun(input);
    var run := RunOf(input);
    TableMembers(input);
    TableIsPlaces(input, run.pairs);
    CleanConclusion(input, run.pairs);
    var scan := After(input, run.pairs, |run.pairs|, 0);
    var suffix := ClosingProofs(input, run.coverage, scan.baseline, scan.candidate);
    FixedLayout(input, run.pairs, run.coverage, scan.baseline, scan.candidate);
    ProbesLayout(input, run.pairs);
    JoinLayout(OpeningProofs(input) + ReplayProofs(input, run.pairs), ProbeProofs(input, run.pairs, Table(input)),
               suffix);
  }

  lemma {:induction false} CleanConclusion(input: Input, pairs: seq<Pair>)
    requires GoodPairs(input, pairs) && AllClean(input, pairs, |pairs|, 0) && InBounds(input, Table(input))
    requires Table(input) == Places(|input.probes|, |pairs|, 0)
    ensures var scan := After(input, pairs, |pairs|, 0);
      var run := Conclude(input, pairs, scan);
      && run.reject.None? && run.pairs == pairs
      && run.proofs == OpeningProofs(input) + ReplayProofs(input, pairs) + ProbeProofs(input, pairs, Table(input))
                       + ClosingProofs(input, run.coverage, scan.baseline, scan.candidate)
  {
    hide ProofAt, Decide, ScanCell, FromReplay, AllClean, After, BlockCells, Table, ProbeProofs,
         OpeningProofs, ReplayProofs, ClosingProofs, InBounds;
    CleanScan(input, pairs, |pairs|, 0);
  }

  predicate OwnId(p: Proof) {
    p.id == ProofId(p.kind, p.artifactHash)
  }

  lemma {:induction false} FixedLayout(input: Input, pairs: seq<Pair>, coverage: Manifest, base: seq<Assertion>,
                                       cand: seq<Assertion>)
    ensures Kinds(OpeningProofs(input) + ReplayProofs(input, pairs)) == PREFIX_KINDS
    ensures Kinds(ClosingProofs(input, coverage, base, cand)) == SUFFIX_KINDS
    ensures forall p ::
      p in OpeningProofs(input) + ReplayProofs(input, pairs) + ClosingProofs(input, coverage, base, cand) ==> OwnId(p)
    ensures forall p :: p in ClosingProofs(input, coverage, base, cand) && p.kind == ProofKind.Coverage ==>
      p.artifactHash == HashObj(EncodeManifest(coverage))
  {
    hide WellformedAll, EncodeTraces, Absolute, EncodeManifest, PackageArtifact, EncodeAssertions;
  }

  lemma {:induction false} ProbesLayout(input: Input, pairs: seq<Pair>)
    requires GoodPairs(input, pairs) && InBounds(input, Table(input))
    ensures forall p :: p in ProbeProofs(input, pairs, Table(input)) ==> p.kind == Probe && OwnId(p)
  {
  }

  lemma {:induction false} JoinLayout(prefix: seq<Proof>, probes: seq<Proof>, suffix: seq<Proof>)
    requires Kinds(prefix) == PREFIX_KINDS && Kinds(suffix) == SUFFIX_KINDS
    requires forall p :: p in prefix + suffix ==> OwnId(p)
    requires forall p :: p in probes ==> p.kind == Probe && OwnId(p)
    ensures Layout(prefix, probes, suffix)
  {
  }

  lemma {:induction false} TableIsPlaces(input: Input, pairs: seq<Pair>)
    requires |pairs| == |input.scenarios|
    ensures Table(input) == Places(|input.probes|, |pairs|, 0)
  {
  }

  lemma {:induction false} ProofAtId(input: Input, pairs: seq<Pair>, a: nat, b: nat)
    requires Cellular(input, pairs, a, b)
    ensures var p := ProofAt(input, pairs, a, b);
      p.kind == Probe && p.id == ProofId(Probe, p.artifactHash) &&
        p.artifactHash == HashObj(ArtifactAt(input, pairs, a, b))
  {
  }

  ghost function ArtifactAt(input: Input, pairs: seq<Pair>, a: nat, b: nat): Value
    requires Cellular(input, pairs, a, b)
  {
    EvaluateShape(input.probes[b].check, pairs[a].baseline);
    EvaluateShape(input.probes[b].check, pairs[a].candidate);
    ProbeArtifact(Evaluate(input.probes[b].check, pairs[a].baseline).value,
                  Evaluate(input.probes[b].check, pairs[a].candidate).value)
  }

  lemma {:induction false} RunIsShaped(input: Input)
    requires ValidInput(input) && RunOf(input).envelope.status in {Pass, Withheld}
    ensures var run := RunOf(input);
      && RunnerShaped(run.proofs, run.coverage, input.identity)
      && Decides(run.envelope, run.proofs, run.coverage, Context(input.chain.status, run.reject))
  {
    hide ProbeProofs, PackageArtifact, EncodeManifest, Decide, Replays, After, ReplayProofs, FromReplay, Table,
      InBounds, OpeningProofs, Layout,
         RunnerShaped, Decides, RunOf;
    RunLayout(input);
    RunDecides(input);
    var run := RunOf(input);
    var prefix, probes := OpeningProofs(input) + ReplayProofs(input, run.pairs),
      ProbeProofs(input, run.pairs, Table(input));
    var suffix: seq<Proof> :| run.proofs == prefix + probes + suffix && Layout(prefix, probes, suffix)
      && (forall p :: p in suffix && p.kind == ProofKind.Coverage ==>
          p.artifactHash == HashObj(EncodeManifest(run.coverage)));
    LayoutShaped(input, run, prefix, probes, suffix);
  }

  lemma {:induction false} RunDecides(input: Input)
    requires forall s :: s in input.scenarios ==> ValidBars(s.bars)
    ensures var run := RunOf(input);
      Decides(run.envelope, run.proofs, run.coverage, Context(input.chain.status, run.reject))
  {
    hide Decide, Replays, After, OpeningProofs, ClosingProofs, Refused;
  }

  /** What `RunnerShaped` asks of a single proof. */
  ghost predicate Shaped(p: Proof, coverage: Manifest, id: Identity) {
    && p.kind != Decision && p.kind != SponsorReadback && (p.kind == EditProvenance ==> !p.verdictBearing) &&
      p.id.kind == p.kind
    && (p.kind == PackageCanonical ==> p.artifactHash == HashObj(PackageArtifact(id)))
    && (p.kind == ProofKind.Coverage ==> p.artifactHash == HashObj(EncodeManifest(coverage)))
  }

  lemma {:induction false} ShapedRun(ps: seq<Proof>, coverage: Manifest, id: Identity)
    requires forall p :: p in ps ==> Shaped(p, coverage, id)
    requires forall kind :: kind in SINGLETONS ==> |ProofsOf(ps, kind)| <= 1
    ensures RunnerShaped(ps, coverage, id)
  {
    hide ProofsOf, PackageArtifact, EncodeManifest;
  }

  lemma {:induction false} LayoutShaped(input: Input, run: Decided, prefix: seq<Proof>, probes: seq<Proof>,
                                        suffix: seq<Proof>)
    requires run.proofs == prefix + probes + suffix && Layout(prefix, probes, suffix)
    requires prefix == OpeningProofs(input) + ReplayProofs(input, run.pairs)
    requires forall p :: p in suffix && p.kind == ProofKind.Coverage ==>
      p.artifactHash == HashObj(EncodeManifest(run.coverage))
    ensures RunnerShaped(run.proofs, run.coverage, input.identity)
  {
    hide PackageArtifact, EncodeManifest, ReplayProofs, OpeningProofs, ProofsOf, Kinds, Layout, OwnId, RunnerShaped;
    OwnIdKind(prefix + probes + suffix);
    LayoutKinds(prefix, probes, suffix);
    OpeningFacts(input, run.pairs);
    forall p | p in run.proofs ensures Shaped(p, run.coverage, input.identity) {
      assert p in prefix || p in probes || p in suffix;
    }
    forall kind | kind in SINGLETONS ensures |ProofsOf(run.proofs, kind)| <= 1 {
      LayoutOnce(prefix, probes, suffix, kind);
    }
    ShapedRun(run.proofs, run.coverage, input.identity);
  }

  lemma {:induction false} OwnIdKind(ps: seq<Proof>)
    ensures forall p :: p in ps && OwnId(p) ==> p.id.kind == p.kind
  {
  }

  lemma {:induction false} LayoutKinds(prefix: seq<Proof>, probes: seq<Proof>, suffix: seq<Proof>)
    requires Layout(prefix, probes, suffix)
    ensures forall p :: p in prefix ==> p.kind in PREFIX_KINDS
    ensures forall p :: p in probes ==> p.kind == Probe
    ensures forall p :: p in suffix ==> p.kind in SUFFIX_KINDS
    ensures forall p :: p in prefix + probes + suffix ==> OwnId(p)
  {
    assert forall i :: 0 <= i < |prefix| ==> Kinds(prefix)[i] == prefix[i].kind;
    assert forall i :: 0 <= i < |suffix| ==> Kinds(suffix)[i] == suffix[i].kind;
  }

  lemma {:induction false} OpeningFacts(input: Input, pairs: seq<Pair>)
    ensures forall p :: p in OpeningProofs(input) + ReplayProofs(input, pairs) ==>
      && (p.kind == EditProvenance ==> !p.verdictBearing)
      && (p.kind == PackageCanonical ==> p.artifactHash == HashObj(PackageArtifact(input.identity)))
  {
    hide PackageArtifact, WellformedAll, EncodeTraces;
  }

  // ---------- the theorems ----------

  /** Two probes of one scenario that report the same pair of results. */
  ghost predicate SameResults(input: Input, pairs: seq<Pair>, a: nat, b: nat, b': nat)
    requires GoodPairs(input, pairs) && a < |pairs| && b < |input.probes| && b' < |input.probes|
  {
    && Evaluate(input.probes[b].check, pairs[a].baseline) == Evaluate(input.probes[b'].check, pairs[a].baseline)
    && Evaluate(input.probes[b].check, pairs[a].candidate) == Evaluate(input.probes[b'].check, pairs[a].candidate)
  }

  lemma {:induction false} ArtifactsCollide(input: Input, pairs: seq<Pair>, a: nat, b: nat, a': nat, b': nat)
    requires ValidInput(input) && Cellular(input, pairs, a, b) && Cellular(input, pairs, a', b')
    ensures ArtifactAt(input, pairs, a, b) == ArtifactAt(input, pairs, a', b') <==>
      a == a' && SameResults(input, pairs, a, b, b')
  {
    hide Evaluate, EncodeResult, ProbeArtifact;
    EvaluateShape(input.probes[b].check, pairs[a].baseline);
    EvaluateShape(input.probes[b].check, pairs[a].candidate);
    EvaluateShape(input.probes[b'].check, pairs[a'].baseline);
    EvaluateShape(input.probes[b'].check, pairs[a'].candidate);
    ArtifactEncodeInjective(
      Evaluate(input.probes[b].check, pairs[a].baseline).value,
        Evaluate(input.probes[b].check, pairs[a].candidate).value,
      Evaluate(input.probes[b'].check, pairs[a'].baseline).value,
        Evaluate(input.probes[b'].check, pairs[a'].candidate).value);
  }

  /** The receipt issued by a run passes the verifier's own checks exactly when, within each
      scenario, no two probes report the same pair of results. */
  lemma {:induction false} IssuedReceiptConsistent(input: Input, s: Setting)
    requires ValidInput(input) && s.identity == input.identity
    requires RunOf(input).envelope.status in {Pass, Withheld}
    ensures GoodPairs(input, RunOf(input).pairs)
    ensures var run := RunOf(input);
      && IssueReceipt(run.envelope, run.proofs, run.coverage, s).Some?
      && (SelfConsistent(IssueReceipt(run.envelope, run.proofs, run.coverage, s).value) <==>
           forall a: nat, b: nat, b': nat :: a < |run.pairs| && b < b' < |input.probes| ==>
             !SameResults(input, run.pairs, a, b, b'))
  {
    hide SelfConsistent, RunOf, ProbeProofs, OpeningProofs, ReplayProofs, HasDuplicates, Layout, SameResults,
      ArtifactAt,
         Decides, RunnerShaped, ProofAt, Ids, EncodeManifest, Table, InBounds, FromReplay, ComputeReceiptHash,
         StrengthSummary, Breaches, ResultDigest, MakeDecisionProof, HasId;
    var run := RunOf(input);
    RunLayout(input);
    RunIsShaped(input);
    IssueVerifyRoundTrip(run.envelope, run.proofs, run.coverage, Context(input.chain.status, run.reject), s);
    var prefix, probes := OpeningProofs(input) + ReplayProofs(input, run.pairs),
      ProbeProofs(input, run.pairs, Table(input));
    var suffix: seq<Proof> :| run.proofs == prefix + probes + suffix && Layout(prefix, probes, suffix);
    LayoutDuplicates(prefix, probes, suffix);
    ProbeCollisions(input, run.pairs);
  }

  lemma {:induction false} PairCollides(input: Input, pairs: seq<Pair>, x: nat, y: nat)
    requires ValidInput(input) && GoodPairs(input, pairs) && InBounds(input, Table(input))
    requires x < |Table(input)| && y < |Table(input)|
    ensures var table, probes := Table(input), ProbeProofs(input, pairs, Table(input));
      probes[x].artifactHash == probes[y].artifactHash <==>
        table[x].0 == table[y].0 && SameResults(input, pairs, table[x].0, table[x].1, table[y].1)
  {
    hide SameResults, ArtifactAt, ProofAt, Table, FromReplay, ValidInput;
    var table := Table(input);
    ProofAtId(input, pairs, table[x].0, table[x].1);
    ProofAtId(input, pairs, table[y].0, table[y].1);
    ArtifactsCollide(input, pairs, table[x].0, table[x].1, table[y].0, table[y].1);
  }

  lemma {:induction false} ProbeCollisions(input: Input, pairs: seq<Pair>)
    requires ValidInput(input) && GoodPairs(input, pairs) && InBounds(input, Table(input))
    ensures var probes := ProbeProofs(input, pairs, Table(input));
      (exists x, y :: 0 <= x < y < |probes| && probes[x].artifactHash == probes[y].artifactHash) <==>
      !(forall a: nat, b: nat, b': nat :: a < |pairs| && b < b' < |input.probes| ==>
        !SameResults(input, pairs, a, b, b'))
  {
    hide SameResults, ArtifactAt, ProofAt, Table, FromReplay, ValidInput;
    var table, probes := Table(input), ProbeProofs(input, pairs, Table(input));
    TableMembers(input);
    if x, y :| 0 <= x < y < |probes| && probes[x].artifactHash == probes[y].artifactHash {
      PairCollides(input, pairs, x, y);
      assert table[x] != table[y];
      SameResultsSymmetric(input, pairs, table[x].0, table[x].1, table[y].1);
      assert table[x].1 < table[y].1 || table[y].1 < table[x].1;
    }
    if a: nat, b: nat, b': nat :| a < |pairs| && b < b' < |input.probes| && SameResults(input, pairs, a, b, b') {
      assert (a, b) in table && (a, b') in table;
      var x :| 0 <= x < |table| && table[x] == (a, b);
      var y :| 0 <= y < |table| && table[y] == (a, b');
      SameResultsSymmetric(input, pairs, a, b, b');
      PairCollides(input, pairs, x, y);
      PairCollides(input, pairs, y, x);
      assert x < y || y < x;
    }
  }

  lemma {:induction false} SameResultsSymmetric(input: Input, pairs: seq<Pair>, a: nat, b: nat, b': nat)
    requires GoodPairs(input, pairs) && a < |pairs| && b < |input.probes| && b' < |input.probes|
    ensures SameResults(input, pairs, a, b, b') <==> SameResults(input, pairs, a, b', b)
  {
    hide Evaluate;
  }

  /** Why distinctness can fail: on a scenario outside their scope, two behaviour probes of one type
      report the same result whatever their ids and limits. */
  lemma {:induction false} OutOfScopeCollision(input: Input, pairs: seq<Pair>, a: nat, b: nat, b': nat)
    requires GoodPairs(input, pairs) && a < |pairs| && b < |input.probes| && b' < |input.probes|
    requires var p, q := input.probes[b].check, input.probes[b'].check;
      && ((p.UnauthorizedOrder? && q.UnauthorizedOrder?) || (p.SkipConfirm? && q.SkipConfirm?) ||
          (p.BlindRetry? && q.BlindRetry?))
      && !InScope(p, input.scenarios[a].id) && !InScope(q, input.scenarios[a].id)
    ensures SameResults(input, pairs, a, b, b')
  {
    assert pairs[a].baseline.scenarioId == input.scenarios[a].id == pairs[a].candidate.scenarioId;
  }

  /** So the receipt such a run issues fails its own binding check, though nothing is wrong with the run. */
  lemma {:induction false} OutOfScopeReceiptFails(input: Input, s: Setting, a: nat, b: nat, b': nat)
    requires ValidInput(input) && s.identity == input.identity && RunOf(input).envelope.status in {Pass, Withheld}
    requires a < |input.scenarios| && b < b' < |input.probes|
    requires var p, q := input.probes[b].check, input.probes[b'].check;
      && ((p.UnauthorizedOrder? && q.UnauthorizedOrder?) || (p.SkipConfirm? && q.SkipConfirm?) ||
          (p.BlindRetry? && q.BlindRetry?))
      && !InScope(p, input.scenarios[a].id) && !InScope(q, input.scenarios[a].id)
    ensures var run := RunOf(input);
      && IssueReceipt(run.envelope, run.proofs, run.coverage, s).Some?
      && BindingError(IssueReceipt(run.envelope, run.proofs, run.coverage, s).value) == Some(ReceiptMismatch)
      && !SelfConsistent(IssueReceipt(run.envelope, run.proofs, run.coverage, s).value)
  {
    hide RunOf, SelfConsistent, IssueReceipt, SameResults, MissingRequired, InScope, ComputeReceiptHash, BindingError,
      RunnerShaped, Decides, Ids,
         HasDuplicates;
    var run := RunOf(input);
    IssuedReceiptConsistent(input, s);
    OutOfScopeCollision(input, run.pairs, a, b, b');
    RunIsShaped(input);
    IssueVerifyRoundTrip(run.envelope, run.proofs, run.coverage, Context(input.chain.status, run.reject), s);
    IssuedBinding(run.envelope, run.proofs, run.coverage, Context(input.chain.status, run.reject), s);
    OneBindingError(IssueReceipt(run.envelope, run.proofs, run.coverage, s).value);
  }

  lemma {:induction false} OneBindingError(r: Receipt)
    ensures BindingError(r) in {None, Some(ReceiptMismatch)}
  {
  }
}
