/** The decision of `proof_kernel.py`: how proofs and coverage become a status. */
module ProofKernel {
  import opened Wrappers
  import opened Models
  import opened Digests
  import opened Ordering
  import opened Canonical
  import opened Probes

  // ---------- records and their encodings ----------

  datatype Meta = Meta(scenarioId: Option<string>, probeId: Option<string>,
                       breachAction: Option<string>, sizeCap: Option<string>, other: Value)

  const NO_META := Meta(None, None, None, None, Null)

  datatype Proof = Proof(id: ProofId, phase: string, kind: ProofKind, verdictBearing: bool, inputsHash: Digest,
                         artifactHash: Digest, assertions: seq<Assertion>, meta: Meta, guards: Value)

  type Cell = (string, string)

  datatype Manifest = Manifest(cells: seq<Cell>, complete: bool, missing: seq<string>)

  datatype Context = Context(chainStatus: ChainStatus, rejectReason: Option<ReasonCode>)

  datatype Capabilities = Capabilities(scenarioCount: nat, other: Value)

  datatype Envelope = Envelope(status: Status, tier: VerdictTier, sizeCap: Option<real>, reason: ReasonCode,
                               chainStatus: ChainStatus, required: multiset<ProofId>, satisfied: multiset<ProofId>,
                               coverage: Manifest, capabilities: Capabilities)

  function OptDec(d: Option<real>): Value {
    if d.None? then Null else Dec(d.value)
  }

  function Texts(ts: seq<string>): Value {
    Arr(seq(|ts|, i requires 0 <= i < |ts| => Text(ts[i])))
  }

  function EncodeAssertion(a: Assertion): Value {
    Rec("assertion", [Text(a.metric), Text(a.op), Text(a.threshold), Text(a.observed), Text(a.scenarioId), Num(a.bar),
                      Flag(a.holds)])
  }

  function EncodeAssertions(s: seq<Assertion>): Value {
    Arr(seq(|s|, i requires 0 <= i < |s| => EncodeAssertion(s[i])))
  }

  function EncodeManifest(m: Manifest): Value {
    Rec("coverage", [
      Arr(seq(|m.cells|, i requires 0 <= i < |m.cells| => Arr([Text(m.cells[i].0), Text(m.cells[i].1)]))),
      Flag(m.complete), Texts(m.missing)])
  }

  function EncodeMeta(m: Meta): Value {
    Rec("meta", [OptText(m.scenarioId), OptText(m.probeId), OptText(m.breachAction), OptText(m.sizeCap), m.other])
  }

  function EncodeId(id: ProofId): Value {
    Rec("proof_id", [OfKind(id.kind), Hash(id.digest)])
  }

  function EncodeProof(p: Proof): Value {
    Rec("proof", [EncodeId(p.id), Text(p.phase), OfKind(p.kind), Flag(p.verdictBearing), Hash(p.inputsHash),
                  Hash(p.artifactHash), EncodeAssertions(p.assertions), EncodeMeta(p.meta), p.guards])
  }

  function EncodeEnvelope(e: Envelope): Value {
    Rec("envelope", [OfStatus(e.status), OfTier(e.tier), OptDec(e.sizeCap), OfReason(e.reason), OfChain(e.chainStatus),
                     SortedIds(e.required), SortedIds(e.satisfied), EncodeManifest(e.coverage),
                     Rec("capabilities", [Num(e.capabilities.scenarioCount), e.capabilities.other])])
  }

  // ---------- the helpers of decide ----------

  predicate HasDuplicates<T(==)>(items: seq<T>) {
    exists i, j :: 0 <= i < j < |items| && items[i] == items[j]
  }

  method FindDuplicate<T(==)>(items: seq<T>) returns (found: bool)
    ensures found == HasDuplicates(items)
  {
    var seen: seq<T> := [];
    for i := 0 to |items|
      invariant seen == items[..i] && forall k, j :: 0 <= k < j < i ==> items[k] != items[j]
    {
      if items[i] in seen {
        return true;
      }
      seen := seen + [items[i]];
    }
    found := false;
  }

  predicate VerdictProbe(p: Proof) {
    p.kind == Probe && p.verdictBearing
  }

  predicate Breaching(p: Proof) {
    VerdictProbe(p) && !AllHold(p.assertions)
  }

  predicate HasBlockBreach(proofs: seq<Proof>) {
    exists p :: p in proofs && Breaching(p)
  }

  method FindBlockBreach(proofs: seq<Proof>) returns (found: bool)
    ensures found == HasBlockBreach(proofs)
  {
    for i := 0 to |proofs|
      invariant forall k :: 0 <= k < i ==> !Breaching(proofs[k])
    {
      if VerdictProbe(proofs[i]) {
        for j := 0 to |proofs[i].assertions|
          invariant forall k :: 0 <= k < j ==> proofs[i].assertions[k].holds
        {
          if !proofs[i].assertions[j].holds {
            assert proofs[i].assertions[j] in proofs[i].assertions;
            assert proofs[i] in proofs && Breaching(proofs[i]);
            return true;
          }
        }
      }
    }
    found := false;
  }

  /** The cap a breaching proof asks for; None when it does not ask for a usable one. */
  function CapOf(p: Proof): Option<real> {
    if p.meta.breachAction != Some("reduce_size") || p.meta.sizeCap.None? then None
    else
      match DecimalOf(p.meta.sizeCap.value)
      case None => None
      case Some(cap) => if cap <= 0.0 || cap > 1.0 then None else Some(cap)
  }

  predicate EveryBreachReduces(proofs: seq<Proof>) {
    forall p :: p in proofs && Breaching(p) ==> CapOf(p).Some?
  }

  function Min(x: real, y: real): real {
    if y < x then y else x
  }

  /** The smallest cap any breaching proof asks for. */
  function SmallestCap(proofs: seq<Proof>): Option<real> {
    if proofs == [] then None
    else
      var rest, p := SmallestCap(proofs[..|proofs| - 1]), proofs[|proofs| - 1];
      if !Breaching(p) || CapOf(p).None? then rest
      else if rest.None? then CapOf(p)
      else Some(Min(rest.value, CapOf(p).value))
  }

  function ReduceCap(proofs: seq<Proof>): Option<real> {
    if EveryBreachReduces(proofs) then SmallestCap(proofs) else None
  }

  method ReduceSizeCapForBreaches(proofs: seq<Proof>) returns (cap: Option<real>)
    ensures cap == ReduceCap(proofs)
  {
    hide CapOf, Breaching;
    cap := None;
    for i := 0 to |proofs|
      invariant cap == SmallestCap(proofs[..i])
      invariant forall k :: 0 <= k < i && Breaching(proofs[k]) ==> CapOf(proofs[k]).Some?
    {
      assert proofs[..i + 1][..i] == proofs[..i];
      if Breaching(proofs[i]) {
        var mine := CapOf(proofs[i]);
        if mine.None? {
          assert proofs[i] in proofs;
          return None;
        }
        cap := if cap.None? then mine else Some(Min(cap.value, mine.value));
      }
    }
    assert proofs[..|proofs|] == proofs;
  }

  predicate Covers(p: Proof, cell: Cell) {
    && VerdictProbe(p)
    && p.meta.scenarioId == Some(cell.0) && p.meta.probeId == Some(cell.1)
    && exists a :: a in p.assertions && a.scenarioId == cell.0
  }

  predicate Covered(proofs: seq<Proof>, cell: Cell) {
    exists p :: p in proofs && Covers(p, cell)
  }

  lemma {:induction false} CoveredSnoc(proofs: seq<Proof>, p: Proof)
    ensures forall cell :: Covered(proofs + [p], cell) <==> Covered(proofs, cell) || Covers(p, cell)
  {
  }

  function CellText(cell: Cell, why: string): string {
    cell.0 + ":" + cell.1 + ":" + why
  }

  function MissingCells(proofs: seq<Proof>, cells: seq<Cell>): seq<string> {
    if cells == [] then []
    else
      var rest, cell := MissingCells(proofs, cells[..|cells| - 1]), cells[|cells| - 1];
      if Covered(proofs, cell) then rest else rest + [CellText(cell, "missing_probe_proof")]
  }

  method MissingProbeCoverageCells(proofs: seq<Proof>, cells: seq<Cell>) returns (missing: seq<string>)
    ensures missing == MissingCells(proofs, cells)
  {
    var covered: seq<Cell> := [];
    for i := 0 to |proofs|
      invariant forall cell :: cell in covered <==> Covered(proofs[..i], cell)
    {
      var p := proofs[i];
      CoveredSnoc(proofs[..i], p);
      assert proofs[..i + 1] == proofs[..i] + [p];
      if VerdictProbe(p) && p.meta.scenarioId.Some? && p.meta.probeId.Some? {
        var cell := (p.meta.scenarioId.value, p.meta.probeId.value);
        if (exists a :: a in p.assertions && a.scenarioId == cell.0) && cell !in covered {
          covered := covered + [cell];
        }
      }
    }
    assert proofs[..|proofs|] == proofs;
    missing := [];
    for i := 0 to |cells|
      invariant missing == MissingCells(proofs, cells[..i])
    {
      assert cells[..i + 1][..i] == cells[..i];
      if cells[i] !in covered {
        missing := missing + [CellText(cells[i], "missing_probe_proof")];
      }
    }
    assert cells[..|cells|] == cells;
  }

  predicate MentionsErrored(text: string) {
    exists i :: 0 <= i < |text| && ErroredAt(text, i)
  }

  predicate ErroredAt(text: string, i: nat) {
    i + 7 <= |text| && text[i..i + 7] == "errored"
  }

  function ScenarioCount(cells: seq<Cell>): nat {
    |Unique(seq(|cells|, i requires 0 <= i < |cells| => cells[i].0))|
  }

  function RequiredKinds(status: Status): seq<ProofKind> {
    match status
    case Pass => [BaselineCalibration, ReplayRun, ReplayWellformed, ProofKind.Coverage, Probe, CandidateAbsolute,
                  PackageCanonical, SpecCompile, Decision]
    case Withheld => [PackageCanonical, SpecCompile, ReplayRun, ReplayWellformed, ProofKind.Coverage, Probe, Decision]
    case ReduceSize => [PackageCanonical, SpecCompile, ReplayRun, ReplayWellformed, ProofKind.Coverage, Probe, Decision]
    case Reject => [Decision]
    case UnverifiedNoVerdict => []
  }

  /** The ids of the verdict-bearing proofs of one kind. */
  function IdsOf(proofs: seq<Proof>, kind: ProofKind): multiset<ProofId> {
    if proofs == [] then multiset{}
    else
      var p := proofs[|proofs| - 1];
      IdsOf(proofs[..|proofs| - 1], kind) + if p.verdictBearing && p.kind == kind then multiset{p.id} else multiset{}
  }

  function AllIds(proofs: seq<Proof>): multiset<ProofId> {
    multiset(seq(|proofs|, i requires 0 <= i < |proofs| => proofs[i].id))
  }

  predicate KindsPresent(proofs: seq<Proof>, kinds: seq<ProofKind>) {
    forall kind :: kind in kinds && kind != Decision ==> IdsOf(proofs, kind) != multiset{}
  }

  function RequiredIds(proofs: seq<Proof>, kinds: seq<ProofKind>, decision: ProofId): multiset<ProofId> {
    if kinds == [] then multiset{}
    else
      var kind := kinds[|kinds| - 1];
      RequiredIds(proofs, kinds[..|kinds| - 1], decision) + IdsForKind(proofs, kind, decision)
  }

  function IdsForKind(proofs: seq<Proof>, kind: ProofKind, decision: ProofId): multiset<ProofId> {
    if kind == Decision then multiset{decision} else IdsOf(proofs, kind)
  }

  function DecisionId(status: Status, reason: ReasonCode, ids: multiset<ProofId>, coverage: Manifest,
                      tier: VerdictTier, cap: Option<real>): ProofId {
    ProofId(Decision, HashObj(Rec("decision", [OfStatus(status), OfReason(reason), SortedIds(ids),
                                               EncodeManifest(coverage), OfTier(tier), OptDec(cap)])))
  }

  // ---------- decide ----------

  /** The coverage the verdict is taken on. */
  function Checked(proofs: seq<Proof>, coverage: Manifest): Manifest {
    var normal :=
      if coverage.complete && (coverage.cells == [] || HasDuplicates(coverage.cells))
      then Manifest(UniqueSorted(coverage.cells, PairLeq), false, [ReasonText(CoverageIncomplete)]) else coverage;
    var missing := MissingCells(proofs, normal.cells);
    if normal.complete && missing != [] then Manifest(normal.cells, false, missing) else normal
  }

  datatype Verdict = Verdict(status: Status, tier: VerdictTier, sizeCap: Option<real>, reason: ReasonCode)

  function FirstVerdict(proofs: seq<Proof>, coverage: Manifest, context: Context): Verdict {
    if context.rejectReason.Some? then Verdict(Reject, Block, None, context.rejectReason.value)
    else if !coverage.complete || coverage.cells == [] then
      Verdict(UnverifiedNoVerdict, HumanReview, None,
              if exists m :: m in coverage.missing && MentionsErrored(m) then ProbeError else CoverageIncomplete)
    else if HasBlockBreach(proofs) then
      var cap := ReduceCap(proofs);
      if cap.Some? then Verdict(ReduceSize, TierReduceSize, cap, NewBlockBreach)
      else Verdict(Withheld, Block, None, NewBlockBreach)
    else Verdict(Pass, Allow, None, if context.chainStatus == GenesisChain then BaselineGenesis else ReasonPass)
  }

  function FinalVerdict(proofs: seq<Proof>, coverage: Manifest, context: Context): Verdict {
    var v := FirstVerdict(proofs, coverage, context);
    if v.status in {Pass, Withheld, ReduceSize} && !KindsPresent(proofs, RequiredKinds(v.status))
    then Verdict(UnverifiedNoVerdict, HumanReview, None, ReasonUnverified) else v
  }

  function Decide(proofs: seq<Proof>, given: Manifest, context: Context): Envelope {
    var coverage := Checked(proofs, given);
    var v := FinalVerdict(proofs, coverage, context);
    var decision := DecisionId(v.status, v.reason, AllIds(proofs), coverage, v.tier, v.sizeCap);
    var ids := RequiredIds(proofs, RequiredKinds(v.status), decision);
    Envelope(v.status, v.tier, v.sizeCap, v.reason, context.chainStatus, ids, ids, coverage,
             Capabilities(ScenarioCount(coverage.cells), Null))
  }

  /** The coverage the verdict is taken on, after the two corrections. */
  method CheckCoverage(proofs: seq<Proof>, given: Manifest) returns (coverage: Manifest)
    ensures coverage == Checked(proofs, given)
  {
    hide UniqueSorted, MissingCells;
    coverage := given;
    var repeated := FindDuplicate(coverage.cells);
    if coverage.complete && (coverage.cells == [] || repeated) {
      coverage := Manifest(UniqueSorted(coverage.cells, PairLeq), false, [ReasonText(CoverageIncomplete)]);
    }
    if coverage.complete {
      var missing := MissingProbeCoverageCells(proofs, coverage.cells);
      if missing != [] {
        coverage := Manifest(coverage.cells, false, missing);
      }
    }
  }

  /** Status, tier, cap and reason, before the required kinds are looked at. */
  method TakeVerdict(proofs: seq<Proof>, coverage: Manifest, context: Context) returns (v: Verdict)
    ensures v == FirstVerdict(proofs, coverage, context)
  {
    hide HasBlockBreach, ReduceCap, MentionsErrored;
    if context.rejectReason.Some? {
      return Verdict(Reject, Block, None, context.rejectReason.value);
    }
    if !coverage.complete || coverage.cells == [] {
      return Verdict(UnverifiedNoVerdict, HumanReview, None,
                     if exists m :: m in coverage.missing && MentionsErrored(m) then ProbeError
                       else CoverageIncomplete);
    }
    var breach := FindBlockBreach(proofs);
    if breach {
      var cap := ReduceSizeCapForBreaches(proofs);
      return if cap.Some? then Verdict(ReduceSize, TierReduceSize, cap, NewBlockBreach)
        else Verdict(Withheld, Block, None, NewBlockBreach);
    }
    return Verdict(Pass, Allow, None, if context.chainStatus == GenesisChain then BaselineGenesis else ReasonPass);
  }

  /** The ids of every required kind. */
  method CollectRequiredIds(proofs: seq<Proof>, kinds: seq<ProofKind>, decision: ProofId)
    returns (ids: multiset<ProofId>)
    ensures ids == RequiredIds(proofs, kinds, decision)
  {
    hide IdsForKind;
    ids := multiset{};
    for i := 0 to |kinds|
      invariant ids == RequiredIds(proofs, kinds[..i], decision)
    {
      assert kinds[..i + 1][..i] == kinds[..i];
      ids := ids + IdsForKind(proofs, kinds[i], decision);
    }
    assert kinds[..|kinds|] == kinds;
  }

  method DecideEnvelope(proofs: seq<Proof>, given: Manifest, context: Context) returns (envelope: Envelope)
    ensures envelope == Decide(proofs, given, context)
  {
    hide Checked, FirstVerdict, RequiredIds, KindsPresent, DecisionId, ScenarioCount, RequiredKinds;
    var coverage := CheckCoverage(proofs, given);
    var v := TakeVerdict(proofs, coverage, context);
    if v.status in {Pass, Withheld, ReduceSize} && !KindsPresent(proofs, RequiredKinds(v.status)) {
      v := Verdict(UnverifiedNoVerdict, HumanReview, None, ReasonUnverified);
    }
    var decision := DecisionId(v.status, v.reason, AllIds(proofs), coverage, v.tier, v.sizeCap);
    var ids := CollectRequiredIds(proofs, RequiredKinds(v.status), decision);
    envelope := Envelope(v.status, v.tier, v.sizeCap, v.reason, context.chainStatus, ids, ids, coverage,
                         Capabilities(ScenarioCount(coverage.cells), Null));
  }

  // ---------- what a verdict says ----------

  lemma {:induction false} MissingCellsEmpty(proofs: seq<Proof>, cells: seq<Cell>)
    ensures MissingCells(proofs, cells) == [] <==> forall c :: c in cells ==> Covered(proofs, c)
  {
    if cells != [] {
      MissingCellsEmpty(proofs, cells[..|cells| - 1]);
      assert cells == cells[..|cells| - 1] + [cells[|cells| - 1]];
    }
  }

  lemma {:induction false} IdsOfMembers(proofs: seq<Proof>, kind: ProofKind)
    ensures forall id :: id in IdsOf(proofs, kind) <==>
      exists p :: p in proofs && p.verdictBearing && p.kind == kind && p.id == id
  {
    if proofs != [] {
      IdsOfMembers(proofs[..|proofs| - 1], kind);
      assert proofs == proofs[..|proofs| - 1] + [proofs[|proofs| - 1]];
    }
  }

  lemma {:induction false} RequiredIdsMembers(proofs: seq<Proof>, kinds: seq<ProofKind>, decision: ProofId)
    ensures forall id :: id in RequiredIds(proofs, kinds, decision)
                    <==> exists kind :: kind in kinds && id in IdsForKind(proofs, kind, decision)
  {
    if kinds != [] {
      var front, last := kinds[..|kinds| - 1], kinds[|kinds| - 1];
      RequiredIdsMembers(proofs, front, decision);
      assert kinds == front + [last];
      assert last in kinds;
    }
  }

  ghost predicate FullyCovered(proofs: seq<Proof>, coverage: Manifest) {
    && coverage.complete && coverage.cells != [] && !HasDuplicates(coverage.cells)
    && forall c :: c in coverage.cells ==> Covered(proofs, c)
  }

  lemma {:induction false} CheckedComplete(proofs: seq<Proof>, coverage: Manifest)
    ensures Checked(proofs, coverage).complete <==> FullyCovered(proofs, coverage)
    ensures Checked(proofs, coverage).complete ==> Checked(proofs, coverage) == coverage
  {
    MissingCellsEmpty(proofs, coverage.cells);
  }

  /** A receipt is only issued on the coverage that was declared: whenever the verdict is PASS,
      WITHHELD or REDUCE_SIZE, `decide` has left the coverage manifest as it received it. */
  lemma {:induction false} IssuableKeepsCoverage(proofs: seq<Proof>, coverage: Manifest, context: Context)
    requires Decide(proofs, coverage, context).status in {Pass, Withheld, ReduceSize}
    ensures Decide(proofs, coverage, context).coverage == coverage && FullyCovered(proofs, coverage)
    ensures KindsPresent(proofs, RequiredKinds(Decide(proofs, coverage, context).status))
  {
    CheckedComplete(proofs, coverage);
  }

  /** PASS exactly when nothing is rejected, every declared cell is covered by a verdict-bearing
      probe proof, no such proof shows a breach, and every required kind of proof is present. */
  lemma {:induction false} PassExactly(proofs: seq<Proof>, coverage: Manifest, context: Context)
    ensures Decide(proofs, coverage, context).status == Pass
       <==> && context.rejectReason.None? && FullyCovered(proofs, coverage)
            && !HasBlockBreach(proofs) && KindsPresent(proofs, RequiredKinds(Pass))
  {
    CheckedComplete(proofs, coverage);
  }

  lemma {:induction false} WithheldExactly(proofs: seq<Proof>, coverage: Manifest, context: Context)
    ensures Decide(proofs, coverage, context).status == Withheld
       <==> && context.rejectReason.None? && FullyCovered(proofs, coverage)
            && HasBlockBreach(proofs) && !EveryBreachReduces(proofs) && KindsPresent(proofs, RequiredKinds(Withheld))
  {
    CheckedComplete(proofs, coverage);
    SmallestCapIsLeast(proofs);
  }

  lemma {:induction false} SmallestCapIsLeast(proofs: seq<Proof>)
    ensures SmallestCap(proofs).Some? <==> exists p :: p in proofs && Breaching(p) && CapOf(p).Some?
    ensures SmallestCap(proofs).Some? ==> exists p :: p in proofs && Breaching(p) && CapOf(p) == SmallestCap(proofs)
    ensures SmallestCap(proofs).Some? ==>
      forall p :: p in proofs && Breaching(p) && CapOf(p).Some? ==> SmallestCap(proofs).value <= CapOf(p).value
  {
    if proofs != [] {
      var front, last := proofs[..|proofs| - 1], proofs[|proofs| - 1];
      SmallestCapIsLeast(front);
      assert proofs == front + [last];
      assert last in proofs;
    }
  }

  /** REDUCE_SIZE exactly when every breaching proof asks for a usable reduction. */
  lemma {:induction false} ReduceSizeExactly(proofs: seq<Proof>, coverage: Manifest, context: Context)
    ensures Decide(proofs, coverage, context).status == ReduceSize
       <==> && context.rejectReason.None? && FullyCovered(proofs, coverage)
            && HasBlockBreach(proofs) && EveryBreachReduces(proofs) && KindsPresent(proofs, RequiredKinds(ReduceSize))
  {
    CheckedComplete(proofs, coverage);
    SmallestCapIsLeast(proofs);
  }

  /** The cap granted is the smallest one a breaching proof asks for and lies in (0, 1]. */
  lemma {:induction false} ReduceSizeCapIsLeast(proofs: seq<Proof>, coverage: Manifest, context: Context)
    ensures var e := Decide(proofs, coverage, context);
      && (e.sizeCap.Some? <==> e.status == ReduceSize)
      && (e.sizeCap.Some? ==>
           && 0.0 < e.sizeCap.value <= 1.0
           && (exists p :: p in proofs && Breaching(p) && CapOf(p) == e.sizeCap)
           && (forall p :: p in proofs && Breaching(p) ==> CapOf(p).Some? && e.sizeCap.value <= CapOf(p).value))
  {
    SmallestCapIsLeast(proofs);
    assert Decide(proofs, coverage, context).sizeCap.Some? ==>
      Decide(proofs, coverage, context).sizeCap == ReduceCap(proofs);
  }
}
