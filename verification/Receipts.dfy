/** Issuing a receipt (`receipt.py`), reporting on it (`report.py`) and checking it (`verifier.py`). */
module Receipts {
  import opened Wrappers
  import opened Models
  import opened Digests
  import opened Ordering
  import opened Probes
  import opened ProofKernel
  import opened Runner

  datatype Receipt = Receipt(
    prevReceiptHash: Digest,
    identityHash: Digest, manifestHash: Digest, adapterId: string, lockHash: Digest,
    baselineHash: Digest, chainStatus: ChainStatus, candidateHash: Digest,
    specHash: Digest, suiteLockHash: Digest, scenarioIds: seq<string>,
    status: Status, breaches: seq<Assertion>, resultHash: Digest,
    coverage: Manifest,
    reason: ReasonCode, tier: VerdictTier, sizeCap: Option<real>,
    required: multiset<ProofId>, satisfied: multiset<ProofId>,
    proofs: seq<Proof>, capabilities: Capabilities, strength: string, reportHash: Digest,
    provenance: Value, other: Value,
    receiptHash: Digest)

  /** The run's facts a receipt carries besides the decision. */
  datatype Setting = Setting(identity: Identity, prevReceiptHash: Digest, specHash: Digest, suiteLockHash: Digest,
                             scenarioIds: seq<string>, provenance: Value, other: Value)

  // ---------- hashing ----------

  function EncodeProofs(ps: seq<Proof>): Value {
    Arr(seq(|ps|, i requires 0 <= i < |ps| => EncodeProof(ps[i])))
  }

  function ResultDigest(status: Status, breaches: seq<Assertion>): Digest {
    HashObj(Rec("result", [OfStatus(status), EncodeAssertions(breaches)]))
  }

  function EncodeSubject(r: Receipt): Value {
    Rec("subject", [Hash(r.identityHash), Hash(r.manifestHash), Text(r.adapterId), Hash(r.lockHash),
                    Hash(r.baselineHash), OfChain(r.chainStatus), Hash(r.candidateHash)])
  }

  function EncodeSuite(r: Receipt): Value {
    Rec("suite", [Hash(r.specHash), Hash(r.suiteLockHash), Texts(r.scenarioIds)])
  }

  function EncodeResultPart(r: Receipt): Value {
    Rec("result", [OfStatus(r.status), EncodeAssertions(r.breaches), Hash(r.resultHash), EncodeManifest(r.coverage),
                   OfReason(r.reason), OfTier(r.tier), OptDec(r.sizeCap)])
  }

  function EncodeEvidence(r: Receipt): Value {
    Rec("evidence", [SortedIds(r.required), SortedIds(r.satisfied), EncodeProofs(r.proofs),
                     Rec("capabilities", [Num(r.capabilities.scenarioCount), r.capabilities.other]),
                     Text(r.strength), Hash(r.reportHash)])
  }

  function EncodeReceipt(r: Receipt): Value {
    Rec("receipt", [Hash(r.prevReceiptHash), EncodeSubject(r), EncodeSuite(r), EncodeResultPart(r), EncodeEvidence(r),
                    r.provenance, r.other, Hash(r.receiptHash)])
  }

  function ComputeReceiptHash(r: Receipt): Digest {
    HashObj(EncodeReceipt(r.(receiptHash := Unset)))
  }

  // ---------- strength summary ----------

  function AssertionText(a: Assertion): string {
    a.metric + " " + a.op + " " + a.threshold + " observed " + a.observed
  }

  function AssertionTexts(s: seq<Assertion>): seq<string> {
    seq(|s|, i requires 0 <= i < |s| => AssertionText(s[i]))
  }

  function StrengthItems(ps: seq<Proof>): seq<string> {
    if ps == [] then [] else StrengthItems(ps[..|ps| - 1]) + AssertionTexts(ps[|ps| - 1].assertions)
  }

  function Join(items: seq<string>): string {
    if items == [] then "" else if |items| == 1 then items[0] else items[0] + "; " + Join(items[1..])
  }

  function SummaryText(sorted: seq<string>, scenarios: nat): string {
    "tested: " + Join(sorted) + "; " + IntText(scenarios) + " anchored scenarios"
  }

  function StrengthSummary(ps: seq<Proof>, scenarios: nat): string {
    SummaryText(UniqueSorted(StrengthItems(ps), TextLeq), scenarios)
  }

  // ---------- issuing ----------

  function Fingerprints(ps: seq<Proof>): multiset<Digest> {
    multiset(seq(|ps|, i requires 0 <= i < |ps| => HashObj(EncodeProof(ps[i]))))
  }

  function DecisionInputs(ps: seq<Proof>, coverage: Manifest): Digest {
    HashObj(Rec("decision_inputs", [SortedHashes(Fingerprints(ps)), SortedIds(AllIds(ps)), EncodeManifest(coverage)]))
  }

  function MakeDecisionProof(e: Envelope, ps: seq<Proof>): Proof {
    Proof(DecisionId(e.status, e.reason, AllIds(ps), e.coverage, e.tier, e.sizeCap), "decide", Decision, true,
          DecisionInputs(ps, e.coverage), HashObj(EncodeEnvelope(e)), [], NO_META, Null)
  }

  predicate HasId(ps: seq<Proof>, id: ProofId) {
    exists p :: p in ps && p.id == id
  }

  function Failing(s: seq<Assertion>): seq<Assertion> {
    if s == [] then []
    else Failing(s[..|s| - 1]) + if s[|s| - 1].holds then [] else [s[|s| - 1]]
  }

  function Breaches(ps: seq<Proof>): seq<Assertion> {
    if ps == [] then []
    else
      var last := ps[|ps| - 1];
      Breaches(ps[..|ps| - 1]) + if last.kind == Probe then Failing(last.assertions) else []
  }

  function IssueReceipt(e: Envelope, ps: seq<Proof>, coverage: Manifest, s: Setting): Option<Receipt> {
    if e.status !in {Pass, Withheld, ReduceSize} then None
    else
      var decision := MakeDecisionProof(e, ps);
      var all := if HasId(ps, decision.id) then ps else ps + [decision];
      var breaches := Breaches(all);
      var draft := Receipt(
        s.prevReceiptHash, s.identity.packageHash, s.identity.packageHash, s.identity.adapterId, s.identity.lockHash,
        s.identity.baselineHash, e.chainStatus, s.identity.candidateHash, s.specHash, s.suiteLockHash, s.scenarioIds,
        e.status, breaches, ResultDigest(e.status, breaches), coverage,
        e.reason, e.tier, e.sizeCap, e.required, e.satisfied, all, e.capabilities,
        StrengthSummary(all, |s.scenarioIds|), Pending, s.provenance, s.other, Unset);
      Some(draft.(receiptHash := ComputeReceiptHash(draft)))
  }

  // ---------- reporting ----------

  datatype Report = Report(receiptHash: Option<Digest>, body: Value, reportHash: Digest)

  function ReportBody(e: Envelope, receipt: Option<Receipt>, traces: Value, ps: seq<Proof>): Value {
    var shown := if receipt.Some? then receipt.value.proofs else ps;
    Rec("report_body", [
      EncodeEnvelope(e), if receipt.Some? then Text(receipt.value.strength) else Text(""), traces, EncodeProofs(shown),
      if receipt.Some? then receipt.value.provenance else Null,
      Texts(if receipt.Some? then receipt.value.coverage.missing else e.coverage.missing),
      if receipt.Some? then Text("replayed") else Null])
  }

  /** The hash is taken with the receipt hash blanked out. */
  function ReportDigest(body: Value): Digest {
    HashObj(Rec("report", [Null, body]))
  }

  function ToReport(e: Envelope, receipt: Option<Receipt>, traces: Value, ps: seq<Proof>): Report {
    var body := ReportBody(e, receipt, traces, ps);
    Report(if receipt.Some? then Some(receipt.value.receiptHash) else None, body, ReportDigest(body))
  }

  /** The second pass of `run_redline`: put the report hash in the receipt, then hash the receipt again. */
  function Finalize(e: Envelope, receipt: Receipt, traces: Value, ps: seq<Proof>): (Receipt, Report) {
    var reported := receipt.(reportHash := ToReport(e, Some(receipt), traces, ps).reportHash, receiptHash := Unset);
    var final := reported.(receiptHash := ComputeReceiptHash(reported));
    (final, ToReport(e, Some(final), traces, ps))
  }

  function ExternalReportError(report: Report, expected: Report, receipt: Receipt): Option<ReasonCode> {
    if ReportDigest(report.body) != report.reportHash then Some(ReceiptMismatch)
    else if report.reportHash != receipt.reportHash then Some(ReceiptMismatch)
    else if report != expected then Some(ReceiptMismatch)
    else None
  }

  // ---------- checking ----------

  datatype MissingItem = MissingKind(kind: ProofKind) | OneSided(id: ProofId)

  function ExpectedIds(ps: seq<Proof>, kinds: seq<ProofKind>): multiset<ProofId> {
    if kinds == [] then multiset{} else ExpectedIds(ps, kinds[..|kinds| - 1]) + IdsOf(ps, kinds[|kinds| - 1])
  }

  predicate SameMembers(a: multiset<ProofId>, b: multiset<ProofId>) {
    (forall x :: x in a ==> x in b) && (forall x :: x in b ==> x in a)
  }

  function AbsentKinds(ps: seq<Proof>, kinds: seq<ProofKind>): set<MissingItem> {
    if kinds == [] then {}
    else
      var kind := kinds[|kinds| - 1];
      AbsentKinds(ps, kinds[..|kinds| - 1]) + if IdsOf(ps, kind) == multiset{} then {MissingKind(kind)} else {}
  }

  function MissingRequired(r: Receipt): set<MissingItem> {
    var kinds := RequiredKinds(r.status);
    var expected := ExpectedIds(r.proofs, kinds);
    AbsentKinds(r.proofs, kinds)
    + if SameMembers(expected, r.required) then {}
      else
        (set id | id in r.required && id !in expected :: OneSided(id)) +
        (set id | id in expected && id !in r.required :: OneSided(id))
  }

  /** The loop of `_missing_required_proof_ids` over the required kinds. */
  method MissingRequiredProofIds(r: Receipt) returns (missing: set<MissingItem>)
    ensures missing == MissingRequired(r)
  {
    hide IdsOf, RequiredKinds;
    var kinds := RequiredKinds(r.status);
    var expected: multiset<ProofId> := multiset{};
    missing := {};
    for i := 0 to |kinds|
      invariant expected == ExpectedIds(r.proofs, kinds[..i])
      invariant missing == AbsentKinds(r.proofs, kinds[..i])
    {
      assert kinds[..i + 1][..i] == kinds[..i];
      var ids := IdsOf(r.proofs, kinds[i]);
      if ids == multiset{} {
        missing := missing + {MissingKind(kinds[i])};
      }
      expected := expected + ids;
    }
    assert kinds[..|kinds|] == kinds;
    if !SameMembers(expected, r.required) {
      missing := missing + (set id | id in r.required && id !in expected :: OneSided(id))
                         + (set id | id in expected && id !in r.required :: OneSided(id));
    }
  }

  const SINGLETONS: set<ProofKind> :=
    {PackageCanonical, SpecCompile, ReplayRun, ReplayWellformed, ProofKind.Coverage, BaselineCalibration,
     CandidateAbsolute, Decision}

  const NON_VERDICT: set<ProofKind> := {EditProvenance, SponsorReadback}

  function ProofsOf(ps: seq<Proof>, kind: ProofKind): seq<Proof> {
    if ps == [] then []
    else ProofsOf(ps[..|ps| - 1], kind) + if ps[|ps| - 1].kind == kind then [ps[|ps| - 1]] else []
  }

  function NonDecision(ps: seq<Proof>): seq<Proof> {
    if ps == [] then []
    else NonDecision(ps[..|ps| - 1]) + if ps[|ps| - 1].kind == Decision then [] else [ps[|ps| - 1]]
  }

  function EnvelopeOf(r: Receipt): Envelope {
    Envelope(r.status, r.tier, r.sizeCap, r.reason, r.chainStatus, r.required, r.satisfied, r.coverage, r.capabilities)
  }

  function Ids(ps: seq<Proof>): seq<ProofId> {
    seq(|ps|, i requires 0 <= i < |ps| => ps[i].id)
  }

  predicate DecisionBound(r: Receipt, decision: Proof) {
    var others := NonDecision(r.proofs);
    && decision.id == DecisionId(r.status, r.reason, AllIds(others), r.coverage, r.tier, r.sizeCap)
    && decision.inputsHash == DecisionInputs(others, r.coverage)
    && decision.artifactHash == HashObj(EncodeEnvelope(EnvelopeOf(r)))
  }

  function ReceiptIdentity(r: Receipt): Identity {
    Identity(r.identityHash, r.baselineHash, r.candidateHash, r.adapterId, r.lockHash)
  }

  predicate NonVerdictKinds(ps: seq<Proof>) {
    forall p :: p in ps && p.kind in NON_VERDICT ==> !p.verdictBearing
  }

  predicate AtMostOneEach(ps: seq<Proof>) {
    forall kind :: kind in SINGLETONS ==> |ProofsOf(ps, kind)| <= 1
  }

  predicate PackageBound(r: Receipt) {
    var found := ProofsOf(r.proofs, PackageCanonical);
    |found| == 1 ==> found[0].artifactHash == HashObj(PackageArtifact(ReceiptIdentity(r)))
  }

  predicate CoverageBound(r: Receipt) {
    var found := ProofsOf(r.proofs, ProofKind.Coverage);
    |found| == 1 ==> found[0].artifactHash == HashObj(EncodeManifest(r.coverage))
  }

  predicate DecisionsBound(r: Receipt) {
    var found := ProofsOf(r.proofs, Decision);
    |found| == 1 ==> DecisionBound(r, found[0])
  }

  function BindingError(r: Receipt): Option<ReasonCode> {
    if r.manifestHash != r.identityHash then Some(ReceiptMismatch)
    else if HasDuplicates(Ids(r.proofs)) then Some(ReceiptMismatch)
    else if !NonVerdictKinds(r.proofs) then Some(ReceiptMismatch)
    else if !AtMostOneEach(r.proofs) then Some(ReceiptMismatch)
    else if r.resultHash != ResultDigest(r.status, r.breaches) then Some(ReceiptMismatch)
    else if !PackageBound(r) then Some(ReceiptMismatch)
    else if !CoverageBound(r) then Some(ReceiptMismatch)
    else if !DecisionsBound(r) then Some(ReceiptMismatch)
    else None
  }

  /** The first three checks of `verify`: hash, required proofs, binding. */
  predicate SelfConsistent(r: Receipt) {
    ComputeReceiptHash(r) == r.receiptHash && MissingRequired(r) == {} && BindingError(r) == None
  }

  // ---------- the round trip ----------

  /** Proofs as the runner produces them. */
  ghost predicate RunnerShaped(ps: seq<Proof>, coverage: Manifest, id: Identity) {
    && (forall p :: p in ps ==>
          p.kind != Decision && p.kind != SponsorReadback && (p.kind == EditProvenance ==> !p.verdictBearing))
    && (forall kind :: kind in SINGLETONS ==> |ProofsOf(ps, kind)| <= 1)
    && (forall p :: p in ps && p.kind == PackageCanonical ==> p.artifactHash == HashObj(PackageArtifact(id)))
    && (forall p :: p in ps && p.kind == ProofKind.Coverage ==> p.artifactHash == HashObj(EncodeManifest(coverage)))
    && (forall p :: p in ps ==> p.id.kind == p.kind)
  }

  lemma {:induction false} ProofsOfMembers(ps: seq<Proof>, kind: ProofKind)
    ensures forall p :: p in ProofsOf(ps, kind) <==> p in ps && p.kind == kind
  {
    if ps != [] {
      ProofsOfMembers(ps[..|ps| - 1], kind);
      assert ps == ps[..|ps| - 1] + [ps[|ps| - 1]];
    }
  }

  lemma {:induction false} NonDecisionAll(ps: seq<Proof>)
    requires forall p :: p in ps ==> p.kind != Decision
    ensures NonDecision(ps) == ps
  {
    if ps != [] {
      NonDecisionAll(ps[..|ps| - 1]);
      assert ps == ps[..|ps| - 1] + [ps[|ps| - 1]];
    }
  }

  lemma {:induction false} SnocProof(ps: seq<Proof>, d: Proof, kind: ProofKind)
    ensures ProofsOf(ps + [d], kind) == ProofsOf(ps, kind) + if d.kind == kind then [d] else []
    ensures NonDecision(ps + [d]) == NonDecision(ps) + if d.kind == Decision then [] else [d]
    ensures IdsOf(ps + [d], kind) == IdsOf(ps, kind) + if d.verdictBearing && d.kind == kind then multiset{d.id}
      else multiset{}
    ensures Ids(ps + [d]) == Ids(ps) + [d.id]
  {
  }

  lemma {:induction false} ExpectedMembers(ps: seq<Proof>, kinds: seq<ProofKind>)
    ensures forall id :: id in ExpectedIds(ps, kinds) <==> exists kind :: kind in kinds && id in IdsOf(ps, kind)
  {
    hide IdsOf;
    if kinds != [] {
      var front, last := kinds[..|kinds| - 1], kinds[|kinds| - 1];
      ExpectedMembers(ps, front);
      assert kinds == front + [last];
      forall id | id in ExpectedIds(ps, kinds) ensures exists kind :: kind in kinds && id in IdsOf(ps, kind) {
        if id in ExpectedIds(ps, front) {
          var kind :| kind in front && id in IdsOf(ps, kind);
          assert kind in kinds;
        } else {
          assert last in kinds && id in IdsOf(ps, last);
        }
      }
      forall id, kind | kind in kinds && id in IdsOf(ps, kind) ensures id in ExpectedIds(ps, kinds) {
        assert kind in front || kind == last;
      }
    }
  }

  lemma {:induction false} NothingAbsent(ps: seq<Proof>, kinds: seq<ProofKind>)
    requires forall kind :: kind in kinds ==> IdsOf(ps, kind) != multiset{}
    ensures AbsentKinds(ps, kinds) == {}
  {
    if kinds != [] {
      assert kinds[|kinds| - 1] in kinds;
      NothingAbsent(ps, kinds[..|kinds| - 1]);
    }
  }

  /** The envelope `run_redline` issues from: decide's, with the capabilities filled in. */
  ghost predicate Decides(e: Envelope, ps: seq<Proof>, coverage: Manifest, context: Context) {
    e == Decide(ps, coverage, context).(capabilities := e.capabilities)
  }

  lemma {:induction false} DecisionIdFresh(e: Envelope, ps: seq<Proof>, coverage: Manifest, id: Identity)
    requires RunnerShaped(ps, coverage, id)
    ensures !HasId(ps, MakeDecisionProof(e, ps).id)
  {
  }

  /** The ids the verifier expects are the ids the decision listed. */
  lemma {:induction false} IssuedNothingMissing(e: Envelope, ps: seq<Proof>, coverage: Manifest, context: Context,
                                                s: Setting)
    requires RunnerShaped(ps, coverage, s.identity) && Decides(e, ps, coverage, context)
    requires IssueReceipt(e, ps, coverage, s).Some?
    ensures MissingRequired(IssueReceipt(e, ps, coverage, s).value) == {}
  {
    hide ComputeReceiptHash, StrengthSummary, Breaches, ResultDigest, EncodeReceipt, DecisionInputs, EncodeEnvelope,
      Checked, FinalVerdict, IdsOf, ExpectedIds, AbsentKinds, RequiredIds, DecisionId, RequiredKinds;
    var r, d := IssueReceipt(e, ps, coverage, s).value, MakeDecisionProof(e, ps);
    var kinds := RequiredKinds(e.status);
    DecisionIdFresh(e, ps, coverage, s.identity);
    IssuableKeepsCoverage(ps, coverage, context);
    assert r.proofs == ps + [d] && r.status == e.status && r.required == e.required;
    assert e.required == RequiredIds(ps, kinds, d.id);
    RequiredIdsMembers(ps, kinds, d.id);
    ExpectedMembers(r.proofs, kinds);
    IdsWithDecision(ps, d);
    assert SameMembers(ExpectedIds(r.proofs, kinds), r.required);
    NothingAbsent(r.proofs, kinds);
  }

  lemma {:induction false} IdsWithDecision(ps: seq<Proof>, d: Proof)
    requires d.kind == Decision && d.verdictBearing && forall p :: p in ps ==> p.kind != Decision
    ensures forall kind :: IdsOf(ps + [d], kind) == IdsForKind(ps, kind, d.id)
  {
    hide IdsOf;
    forall kind ensures IdsOf(ps + [d], kind) == IdsForKind(ps, kind, d.id) {
      SnocProof(ps, d, kind);
      if kind == Decision { NoDecisionIds(ps); }
    }
  }

  lemma {:induction false} NoDecisionIds(ps: seq<Proof>)
    requires forall p :: p in ps ==> p.kind != Decision
    ensures IdsOf(ps, Decision) == multiset{}
  {
    if ps != [] {
      NoDecisionIds(ps[..|ps| - 1]);
      assert ps[|ps| - 1] in ps;
    }
  }

  /** An issued receipt is bound exactly when the proofs it was issued from have distinct ids. */
  lemma {:induction false} IssuedBinding(e: Envelope, ps: seq<Proof>, coverage: Manifest, context: Context, s: Setting)
    requires RunnerShaped(ps, coverage, s.identity) && Decides(e, ps, coverage, context)
    requires IssueReceipt(e, ps, coverage, s).Some?
    ensures BindingError(IssueReceipt(e, ps, coverage, s).value) == None <==> !HasDuplicates(Ids(ps))
  {
    hide ComputeReceiptHash, StrengthSummary, Breaches, ResultDigest, EncodeReceipt, DecisionInputs, EncodeEnvelope,
         EncodeManifest, PackageArtifact, RequiredIds, DecisionId, Decides, RunnerShaped, HasDuplicates,
         NonVerdictKinds, AtMostOneEach, PackageBound, CoverageBound, DecisionsBound, Ids;
    var r, d := IssueReceipt(e, ps, coverage, s).value, MakeDecisionProof(e, ps);
    DecisionIdFresh(e, ps, coverage, s.identity);
    assert r.proofs == ps + [d];
    assert forall p :: p in ps ==> p.kind != Decision by { ShapedNoDecision(ps, coverage, s.identity); }
    ShapedKinds(ps, d, coverage, s.identity);
    ShapedArtifacts(r, ps, d, coverage, s.identity);
    IssuedDecisionBound(e, ps, coverage, context, r);
    DuplicatesSnoc(ps, d);
  }

  lemma {:induction false} ShapedNoDecision(ps: seq<Proof>, coverage: Manifest, id: Identity)
    requires RunnerShaped(ps, coverage, id)
    ensures forall p :: p in ps ==> p.kind != Decision
  {
  }

  lemma {:induction false} NoneOfKind(ps: seq<Proof>, kind: ProofKind)
    ensures (forall p :: p in ps ==> p.kind != kind) ==> ProofsOf(ps, kind) == []
  {
    ProofsOfMembers(ps, kind);
    var found := ProofsOf(ps, kind);
    assert found == [] || found[0] in found;
  }

  lemma {:induction false} SnocKinds(ps: seq<Proof>, d: Proof)
    requires d.kind == Decision && forall p :: p in ps ==> p.kind != Decision
    ensures forall kind :: ProofsOf(ps + [d], kind) == if kind == Decision then [d] else ProofsOf(ps, kind)
    ensures NonDecision(ps + [d]) == ps
  {
    forall kind ensures ProofsOf(ps + [d], kind) == if kind == Decision then [d] else ProofsOf(ps, kind) {
      SnocProof(ps, d, kind);
      ProofsOfMembers(ps, kind);
      NoneOfKind(ps, kind);
    }
    SnocProof(ps, d, Decision);
    NonDecisionAll(ps);
  }

  lemma {:induction false} ShapedKinds(ps: seq<Proof>, d: Proof, coverage: Manifest, id: Identity)
    requires RunnerShaped(ps, coverage, id) && d.kind == Decision
    ensures NonVerdictKinds(ps + [d]) && AtMostOneEach(ps + [d])
  {
    hide ProofsOf, PackageArtifact, EncodeManifest;
    SnocKinds(ps, d);
  }

  lemma {:induction false} ShapedArtifacts(r: Receipt, ps: seq<Proof>, d: Proof, coverage: Manifest, id: Identity)
    requires RunnerShaped(ps, coverage, id) && d.kind == Decision
    requires r.proofs == ps + [d] && r.coverage == coverage && ReceiptIdentity(r) == id
    ensures PackageBound(r) && CoverageBound(r)
  {
    hide ProofsOf, PackageArtifact, EncodeManifest, ReceiptIdentity;
    SnocKinds(ps, d);
    ProofsOfMembers(ps, PackageCanonical);
    ProofsOfMembers(ps, ProofKind.Coverage);
    assert |ProofsOf(ps, PackageCanonical)| == 1 ==>
      ProofsOf(ps, PackageCanonical)[0] in ProofsOf(ps, PackageCanonical);
    assert |ProofsOf(ps, ProofKind.Coverage)| == 1 ==>
      ProofsOf(ps, ProofKind.Coverage)[0] in ProofsOf(ps, ProofKind.Coverage);
  }

  lemma {:induction false} IssuedDecisionBound(e: Envelope, ps: seq<Proof>, coverage: Manifest, context: Context,
                                               r: Receipt)
    requires Decides(e, ps, coverage, context) && e.status in {Pass, Withheld, ReduceSize}
    requires forall p :: p in ps ==> p.kind != Decision
    requires r.proofs == ps + [MakeDecisionProof(e, ps)] && EnvelopeOf(r) == e.(coverage := coverage) &&
      r.coverage == coverage
    ensures DecisionsBound(r)
  {
    hide DecisionInputs, EncodeEnvelope, DecisionId, ProofsOf, NonDecision, Checked, FinalVerdict;
    IssuableKeepsCoverage(ps, coverage, context);
    SnocKinds(ps, MakeDecisionProof(e, ps));
  }

  lemma {:induction false} DuplicatesSnoc(ps: seq<Proof>, d: Proof)
    requires !HasId(ps, d.id)
    ensures HasDuplicates(Ids(ps + [d])) <==> HasDuplicates(Ids(ps))
  {
    SnocProof(ps, d, Decision);
    var a, b := Ids(ps), Ids(ps + [d]);
    if i, j :| 0 <= i < j < |a| && a[i] == a[j] {
      assert b[i] == b[j];
    }
    if i, j :| 0 <= i < j < |b| && b[i] == b[j] {
      assert a[i] == b[i] && ps[i] in ps;
      assert j < |a| && a[j] == b[j];
    }
  }

  /** Issue, then verify: from runner-shaped proofs and their decision, an issued receipt has the
      right hash and no missing proof, and it passes the binding check exactly when the proof ids
      are pairwise distinct. */
  lemma {:induction false} IssueVerifyRoundTrip(e: Envelope, ps: seq<Proof>, coverage: Manifest, context: Context,
                                                s: Setting)
    requires RunnerShaped(ps, coverage, s.identity) && Decides(e, ps, coverage, context)
    requires IssueReceipt(e, ps, coverage, s).Some?
    ensures var r := IssueReceipt(e, ps, coverage, s).value;
      && ComputeReceiptHash(r) == r.receiptHash
      && MissingRequired(r) == {}
      && (SelfConsistent(r) <==> !HasDuplicates(Ids(ps)))
  {
    hide MissingRequired, BindingError;
    IssuedNothingMissing(e, ps, coverage, context, s);
    IssuedBinding(e, ps, coverage, context, s);
  }

  /** Filling in the report hash and hashing again keeps every check: receipt and report end up
      naming each other, because the report's hash leaves the receipt hash out. */
  lemma {:induction false} TwoPassBinding(e: Envelope, receipt: Receipt, traces: Value, ps: seq<Proof>)
    ensures var (final, report) := Finalize(e, receipt, traces, ps);
      && final == receipt.(reportHash := report.reportHash, receiptHash := final.receiptHash)
      && ComputeReceiptHash(final) == final.receiptHash
      && report.receiptHash == Some(final.receiptHash)
      && ExternalReportError(report, ToReport(e, Some(final), traces, ps), final) == None
      && MissingRequired(final) == MissingRequired(receipt) && BindingError(final) == BindingError(receipt)
  {
  }
}
