/** The release record, its tier and its transition table (`service/transitions.py`, `service/release.py`). */
module Transitions {
  import opened Wrappers
  import opened Digests

  datatype State =
    | Draft | RedlineRunning | RedlinePassed | EvidenceCollecting | ReviewRequired | Approved | DemoExecuted
    | ReleaseReady | ReleasedDemo | ReleasedLiveGated | Rejected | Killed
    | BlockedWithheld | BlockedUnverified | BlockedMissingEvidence | BlockedRiskPolicy | BlockedApproval
    | BlockedExchangeError

  datatype Tier = L0 | L1 | L2

  /** A bound policy; `breach` is what `risk_policy_breach` says of it without an order, the rest is `body`. */
  datatype Policy = Policy(requireSimulation: bool, requireDemo: bool, requireApproval: bool, mainnet: bool,
                           breach: bool, body: Value)

  /** An approval, or the record a rejection leaves: that one has no nonce. */
  datatype Approval = Approval(reviewer: string, service: bool, fingerprint: Digest, nonce: Option<string>,
                               consumed: bool, comment: string)

  /** The `live_gate` controls of the metadata; a name that is blank counts as absent. */
  datatype LiveGate = LiveGate(confirm: bool, allow: bool, manager: Option<string>, reviewer: Option<string>)

  datatype Missing =
    | RedlinePass | RiskPolicy | SimulationEvidence | HumanApproval | DemoExecution
    | L1Tier | MainnetPolicy | LiveGateControls | ConfirmMainnetOrder | AllowLiveGated | ReleaseManager | SecondReviewer

  datatype Release = Release(
    releaseId: string, strategyId: string, versionId: string, version: Value, createdBy: string,
    state: State, tier: Tier,
    liveGate: Option<LiveGate>, showcase: Option<Approval>, noted: Option<seq<Missing>>,
    run: Option<string>, reason: Option<string>, receiptHash: Option<string>, reportHash: Option<string>,
    simulation: Option<Value>, simulationHash: Option<Digest>,
    policy: Option<Policy>, policyHash: Option<Digest>,
    approval: Option<Approval>,
    executionRun: Option<string>, execution: Option<Value>,
    manifest: Option<Value>, rejectReason: Option<string>, killedAt: Option<string>)

  predicate Truthy(t: Option<string>) {
    t.Some? && t.value != ""
  }

  predicate Terminal(s: State) {
    s in {ReleasedDemo, ReleasedLiveGated, Rejected, Killed, BlockedWithheld, BlockedUnverified, BlockedMissingEvidence,
          BlockedRiskPolicy, BlockedApproval, BlockedExchangeError}
  }

  function Successors(s: State): set<State> {
    match s
    case Draft => {RedlineRunning, RedlinePassed, EvidenceCollecting, BlockedMissingEvidence, BlockedWithheld,
                   BlockedUnverified, Killed}
    case RedlineRunning => {RedlinePassed, BlockedMissingEvidence, BlockedWithheld, BlockedUnverified, Killed}
    case RedlinePassed => {EvidenceCollecting, ReviewRequired, BlockedMissingEvidence, BlockedRiskPolicy, Killed}
    case EvidenceCollecting => {EvidenceCollecting, ReviewRequired, BlockedMissingEvidence, BlockedRiskPolicy, Killed}
    case ReviewRequired => {Approved, Rejected, BlockedMissingEvidence, Killed}
    case Approved => {ReleaseReady, EvidenceCollecting, ReviewRequired, BlockedMissingEvidence, BlockedRiskPolicy,
                      BlockedExchangeError, Killed}
    case DemoExecuted => {ReleaseReady, Killed}
    case ReleaseReady => {ReleasedDemo, ReleasedLiveGated, Killed}
    case _ => {}
  }

  // ---------- evidence ----------

  predicate PassBound(r: Release) {
    r.run.Some? && r.reason == Some("PASS") && Truthy(r.receiptHash) && Truthy(r.reportHash)
  }

  /** The three flags of a policy that ask for evidence; without a policy each is true. */
  predicate NeedsSimulation(r: Release) { r.policy.None? || r.policy.value.requireSimulation }
  predicate NeedsApproval(r: Release) { r.policy.None? || r.policy.value.requireApproval }
  predicate NeedsDemo(r: Release) { r.policy.None? || r.policy.value.requireDemo }

  predicate Mainnet(r: Release) { r.policy.Some? && r.policy.value.mainnet }

  function Note(missing: seq<Missing>, c: bool, m: Missing): seq<Missing> {
    if c then missing + [m] else missing
  }

  predicate NoSecondReviewer(r: Release, g: LiveGate) {
    g.reviewer.None? || g.reviewer == g.manager || g.reviewer == Some(r.createdBy)
  }

  function MissingGate(r: Release, before: seq<Missing>): seq<Missing> {
    var m1 := Note(before, r.tier !in {L1, L2}, L1Tier);
    var m2 := Note(m1, !Mainnet(r), MainnetPolicy);
    if r.liveGate.None? then m2 + [LiveGateControls]
    else
      var g := r.liveGate.value;
      var m3 := Note(m2, !g.confirm, ConfirmMainnetOrder);
      var m4 := Note(m3, !g.allow, AllowLiveGated);
      var m5 := Note(m4, g.manager.None?, ReleaseManager);
      Note(m5, NoSecondReviewer(r, g), SecondReviewer)
  }

  predicate PastReview(s: State) { s in {Approved, ReleaseReady, ReleasedDemo, ReleasedLiveGated} }
  predicate PastApproval(s: State) { s in {ReleaseReady, ReleasedDemo, ReleasedLiveGated} }

  predicate LacksPolicy(r: Release) { r.policy.None? || r.policyHash.None? }
  predicate LacksSimulation(r: Release) { NeedsSimulation(r) && (r.simulation.None? || r.simulationHash.None?) }
  predicate LacksApproval(r: Release) { NeedsApproval(r) && r.approval.None? }
  predicate LacksDemo(r: Release) { NeedsDemo(r) && (r.execution.None? || r.executionRun.None?) }

  function MissingFor(r: Release, target: State): seq<Missing> {
    if target != ReviewRequired && !PastReview(target) then []
    else
      var m1 := Note([], !PassBound(r), RedlinePass);
      var m2 := Note(m1, LacksPolicy(r), RiskPolicy);
      var m3 := Note(m2, LacksSimulation(r), SimulationEvidence);
      var m4 := Note(m3, PastReview(target) && LacksApproval(r), HumanApproval);
      var m5 := Note(m4, PastApproval(target) && LacksDemo(r), DemoExecution);
      if target == ReleasedLiveGated then MissingGate(r, m5) else m5
  }

  /** `_missing_live_gate_controls`, appended to what is already missing. */
  method MissingLiveGateControls(r: Release, before: seq<Missing>) returns (missing: seq<Missing>)
    ensures missing == MissingGate(r, before)
  {
    missing := before;
    if r.tier !in {L1, L2} { missing := missing + [L1Tier]; }
    if !Mainnet(r) { missing := missing + [MainnetPolicy]; }
    if r.liveGate.None? { return missing + [LiveGateControls]; }
    var g := r.liveGate.value;
    if !g.confirm { missing := missing + [ConfirmMainnetOrder]; }
    if !g.allow { missing := missing + [AllowLiveGated]; }
    if g.manager.None? { missing := missing + [ReleaseManager]; }
    if NoSecondReviewer(r, g) { missing := missing + [SecondReviewer]; }
  }

  /** `_missing_evidence_for_target`. */
  method MissingEvidenceForTarget(r: Release, target: State) returns (missing: seq<Missing>)
    ensures missing == MissingFor(r, target)
  {
    hide MissingGate, PassBound, LacksPolicy, LacksSimulation, LacksApproval, LacksDemo;
    if target != ReviewRequired && !PastReview(target) { return []; }
    missing := [];
    if !PassBound(r) { missing := missing + [RedlinePass]; }
    if LacksPolicy(r) { missing := missing + [RiskPolicy]; }
    if LacksSimulation(r) { missing := missing + [SimulationEvidence]; }
    if PastReview(target) {
      if LacksApproval(r) { missing := missing + [HumanApproval]; }
    }
    if PastApproval(target) {
      if LacksDemo(r) { missing := missing + [DemoExecution]; }
    }
    if target == ReleasedLiveGated {
      missing := MissingLiveGateControls(r, missing);
    }
  }

  // ---------- tier ----------

  predicate HasRedlinePass(r: Release) {
    Truthy(r.run) && r.reason == Some("PASS") && Truthy(r.receiptHash)
  }

  predicate HasLiveGate(r: Release) {
    && Mainnet(r) && r.liveGate.Some?
    && var g := r.liveGate.value;
       g.confirm && g.allow && g.manager.Some? && g.reviewer.Some? && g.reviewer != g.manager &&
         g.reviewer != Some(r.createdBy)
  }

  function TierOf(r: Release): Tier {
    if r.state == ReleasedLiveGated && HasLiveGate(r) then L2
    else if HasRedlinePass(r) && r.simulation.Some? && r.simulationHash.Some? && r.policy.Some? && r.policyHash.Some?
            && r.execution.Some? && Truthy(r.executionRun) then L1
    else L0
  }

  /** The transition check of `transitions.py` and the tier rule of `release.py` read the live gate alike. */
  lemma {:induction false} LiveGateAgreement(r: Release, before: seq<Missing>)
    ensures MissingGate(r, before) == [] <==> before == [] && HasLiveGate(r) && r.tier in {L1, L2}
  {
  }

  /** What it takes to be in a state that asks for evidence. */
  ghost predicate Evidenced(r: Release, target: State) {
    && PassBound(r) && r.policy.Some? && r.policyHash.Some?
    && (r.policy.value.requireSimulation ==> r.simulation.Some? && r.simulationHash.Some?)
    && (target != ReviewRequired && r.policy.value.requireApproval ==> r.approval.Some?)
    && (target !in {ReviewRequired, Approved} && r.policy.value.requireDemo ==>
        r.execution.Some? && r.executionRun.Some?)
    && (target == ReleasedLiveGated ==> HasLiveGate(r) && r.tier in {L1, L2})
  }

  lemma {:induction false} MissingForExactly(r: Release, target: State)
    requires target in {ReviewRequired, Approved, ReleaseReady, ReleasedDemo, ReleasedLiveGated}
    ensures MissingFor(r, target) == [] <==> Evidenced(r, target)
  {
  }

  // ---------- transitions ----------

  datatype TransitionError = Invalid | MissingEvidence(missing: seq<Missing>)

  /** `transition_release`; `updated` is the record with its updates and its new state. */
  method TransitionRelease(r: Release, updated: Release) returns (result: Result<Release, TransitionError>)
    ensures result == CheckedTransition(r, updated)
  {
    if r.state != updated.state {
      if Terminal(r.state) { return Err(Invalid); }
      if updated.state !in Successors(r.state) { return Err(Invalid); }
    }
    var missing := MissingEvidenceForTarget(updated, updated.state);
    if missing != [] { return Err(MissingEvidence(missing)); }
    return Ok(updated);
  }

  function CheckedTransition(r: Release, updated: Release): Result<Release, TransitionError> {
    if r.state != updated.state && (Terminal(r.state) || updated.state !in Successors(r.state)) then Err(Invalid)
    else
      var missing := MissingFor(updated, updated.state);
      if missing == [] then Ok(updated) else Err(MissingEvidence(missing))
  }

  function WithTier(r: Release): Release {
    r.(tier := TierOf(r))
  }

  /** `_transition_release_or_409`: an invalid transition is a conflict (`None`); missing evidence blocks the
      release, whatever the table says of that state. */
  function Transition(r: Release, updated: Release): Option<Release> {
    match CheckedTransition(r, updated)
    case Ok(next) => Some(WithTier(next))
    case Err(Invalid) => None
    case Err(MissingEvidence(missing)) =>
      Some(WithTier(updated.(state := BlockedMissingEvidence, noted := Some(missing))))
  }

  method TransitionReleaseOr409(r: Release, updated: Release) returns (next: Option<Release>)
    ensures next == Transition(r, updated)
  {
    hide CheckedTransition, WithTier;
    var result := TransitionRelease(r, updated);
    match result {
      case Ok(to) => return Some(WithTier(to));
      case Err(MissingEvidence(missing)) =>
        return Some(WithTier(updated.(state := BlockedMissingEvidence, noted := Some(missing))));
      case Err(Invalid) => return None;
    }
  }

  /** Everything an approval vouches for. */
  function Fingerprint(r: Release): Digest {
    HashObj(Rec("fingerprint", [
      Text(r.releaseId), Text(r.strategyId), Text(r.versionId), OptText(r.run), OptText(r.receiptHash),
        OptText(r.reportHash),
      OptHash(r.simulationHash), OptHash(r.policyHash), r.version]))
  }

  /** An approval's fingerprint pins the run, both of its hashes, the simulation and the policy. */
  lemma {:induction false} FingerprintBinds(r: Release, q: Release)
    ensures Fingerprint(r) == Fingerprint(q) <==>
      && r.releaseId == q.releaseId && r.strategyId == q.strategyId && r.versionId == q.versionId &&
        r.version == q.version
      && r.run == q.run && r.receiptHash == q.receiptHash && r.reportHash == q.reportHash
      && r.simulationHash == q.simulationHash && r.policyHash == q.policyHash
  {
  }
}
