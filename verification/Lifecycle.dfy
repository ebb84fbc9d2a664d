/** The release endpoints of `service/app.py` as atomic steps on one stored release, and what every run of them
    keeps. */
module Lifecycle {
  import opened Wrappers
  import opened Digests
  import opened Transitions

  datatype RunState = Queued | Running | RunPass | RunFail | Amber | RunError

  datatype Run = Run(state: RunState, reason: Option<string>, receiptHash: Option<string>, reportHash: Option<string>)

  type Runs = map<string, Run>

  /** Who calls: `mayApprove` is membership in the approval roles, `service` the legacy service principal. */
  datatype Principal = Principal(id: string, mayApprove: bool, service: bool)

  /** What the exchange call and the evidence file it leaves behind come to. */
  datatype Order = OrderFailed | EvidenceUnreadable | OrderPlaced(evidence: Value)

  datatype Event =
    | BindRun(runId: string, runs: Runs)
    | ImportSimulation(evidence: Value)
    | BindPolicy(bound: Policy)
    | Approve(who: Principal, freeze: bool, nonce: string, comment: string, runs: Runs)
    | Reject(who: Principal, comment: string)
    | ExecuteDemo(freeze: bool, expired: bool, breach: bool, order: Order, runs: Runs)
    | Showcase(freeze: bool, expired: bool)
    | Kill(at: string)
    | Bundle(manifest: Option<Value>)

  /** What a call comes to: `Done` has stored the release or found nothing to do, `Blocked` gives the reason
      code of a refusal, and the other two are HTTP errors. */
  datatype Answer = Conflict409 | NotFound404 | Blocked(reason: string) | Done

  function StateForBoundRun(run: Run): State {
    if run.state in {Queued, Running} then RedlineRunning
    else if run.state == RunPass && run.reason == Some("PASS") && Truthy(run.receiptHash) then RedlinePassed
    else if run.state in {RunFail, Amber} then BlockedWithheld
    else BlockedUnverified
  }

  function Settle(r: Release, next: Option<Release>): (Release, Answer) {
    if next.None? then (r, Conflict409) else (next.value, Done)
  }

  function Bound(r: Release, runId: string, run: Run): Release {
    r.(state := StateForBoundRun(run), run := Some(runId), reason := run.reason, receiptHash := run.receiptHash,
       reportHash := run.reportHash, approval := None, manifest := None)
  }

  function SimulationDigest(evidence: Value): Digest { HashObj(Rec("simulation", [evidence])) }

  function Simulated(r: Release, evidence: Value): Release {
    r.(state := if r.policy.Some? && HasRedlinePass(r) then ReviewRequired else EvidenceCollecting,
       simulation := Some(evidence), simulationHash := Some(SimulationDigest(evidence)), approval := None,
         manifest := None)
  }

  function PolicyDigest(p: Policy): Digest {
    HashObj(Rec("policy", [Flag(p.requireSimulation), Flag(p.requireDemo), Flag(p.requireApproval), Flag(p.mainnet),
                           p.body]))
  }

  function Governed(r: Release, p: Policy): Release {
    r.(state := if p.breach then BlockedRiskPolicy
                else if HasRedlinePass(r) && r.simulation.Some? then ReviewRequired else EvidenceCollecting,
       policy := Some(p), policyHash := Some(PolicyDigest(p)), approval := None, manifest := None)
  }

  /** The reason code of a call refused for the state alone. */
  function StateReason(s: State): string {
    match s
    case Killed => "KILLED"
    case Rejected => "REJECTED"
    case BlockedWithheld => "BLOCKED_WITHHELD"
    case BlockedUnverified => "BLOCKED_UNVERIFIED"
    case BlockedMissingEvidence => "BLOCKED_MISSING_EVIDENCE"
    case BlockedRiskPolicy => "BLOCKED_RISK_POLICY"
    case BlockedApproval => "BLOCKED_APPROVAL"
    case BlockedExchangeError => "BLOCKED_EXCHANGE_ERROR"
    case _ => "RELEASE_NOT_APPROVED"
  }

  predicate IsBlocked(s: State) {
    s in {BlockedWithheld, BlockedUnverified, BlockedMissingEvidence, BlockedRiskPolicy, BlockedApproval,
          BlockedExchangeError}
  }

  /** `_approval_block_reason`. */
  function ApprovalBlock(r: Release, runs: Runs): Option<string> {
    if r.state in {Killed, Rejected, BlockedWithheld, BlockedUnverified, BlockedRiskPolicy, BlockedExchangeError} then
      Some(StateReason(r.state))
    else if r.run.None? then Some("RUN_REQUIRED")
    else if r.run.value !in runs then Some("RUN_NOT_FOUND")
    else if StateForBoundRun(runs[r.run.value]) != RedlinePassed then Some("REDLINE_VERIFIED_PASS_REQUIRED")
    else if r.receiptHash != runs[r.run.value].receiptHash || !Truthy(r.receiptHash) then
      Some("REDLINE_RECEIPT_REQUIRED")
    else if r.policy.None? || r.policyHash.None? then Some("RISK_POLICY_REQUIRED")
    else if r.policy.value.breach then Some("RISK_POLICY_BREACH")
    else if r.policy.value.requireSimulation && r.simulation.None? then Some("SIMULATION_EVIDENCE_REQUIRED")
    else None
  }

  function NewApproval(r: Release, who: Principal, nonce: string, comment: string): Approval {
    Approval(who.id, who.service, Fingerprint(r), Some(nonce), false, comment)
  }

  /** `_approval_block_reason_for_execution`. */
  function ExecutionBlock(r: Release, approval: Option<Approval>, expired: bool): Option<string> {
    if approval.None? || approval.value.fingerprint != Fingerprint(r) then Some("APPROVAL_EVIDENCE_CHANGED")
    else if approval.value.consumed then Some("APPROVAL_CONSUMED")
    else if expired then Some("APPROVAL_EXPIRED")
    else if !Truthy(approval.value.nonce) then Some("APPROVAL_EVIDENCE_CHANGED")
    else None
  }

  function Consumed(a: Approval): Approval { a.(consumed := true) }

  function ApproveStep(r: Release, e: Event): (Release, Answer)
    requires e.Approve?
  {
    if e.freeze then (r, Blocked("REDLINE_RELEASE_FREEZE"))
    else if !e.who.mayApprove && !e.who.service then (r, Blocked("APPROVAL_ROLE_DENIED"))
    else if e.who.id == r.createdBy && !e.who.service then (r, Blocked("SELF_APPROVAL_FORBIDDEN"))
    else
      var block := ApprovalBlock(r, e.runs);
      if block.Some? then (r, Blocked(block.value))
      else
        var approval := NewApproval(r, e.who, e.nonce, e.comment);
        if r.state == ReleaseReady then (r.(showcase := Some(approval)), Done)
        else Settle(r, Transition(r, r.(state := Approved, approval := Some(approval))))
  }

  function Executed(r: Release, evidence: Value): Release {
    r.(state := ReleaseReady, executionRun := r.run, execution := Some(evidence), manifest := None)
  }

  function ExecuteStep(r: Release, e: Event): (Release, Answer)
    requires e.ExecuteDemo?
  {
    if e.freeze then (r, Blocked("REDLINE_EXECUTION_FREEZE"))
    else if r.execution.Some? then (r, Done)
    else if IsBlocked(r.state) then (r, Blocked(StateReason(r.state)))
    else if r.state != Approved then (r, Blocked("RELEASE_NOT_APPROVED"))
    else
      var block := ExecutionBlock(r, r.approval, e.expired);
      if block.Some? then (r, Blocked(block.value))
      else
        var r1 := r.(approval := Some(Consumed(r.approval.value)));
        if r1.policy.None? then (r1, Blocked("RISK_POLICY_REQUIRED"))
        else if e.breach then Settle(r1, Transition(r1, r1.(state := BlockedRiskPolicy)))
        else if r1.run.None? then (r1, Blocked("RUN_REQUIRED"))
        else if r1.run.value !in e.runs then (r1, NotFound404)
        else match e.order
          case OrderFailed => Settle(r1, Transition(r1, r1.(state := BlockedExchangeError)))
          case EvidenceUnreadable => (r1, Blocked("EXECUTION_EVIDENCE"))
          case OrderPlaced(evidence) =>
            Settle(r1, Transition(r1, Executed(r1, evidence)))
  }

  /** A showcase order only ever consumes an approval: the showcase one when there is one. */
  function ShowcaseStep(r: Release, e: Event): (Release, Answer)
    requires e.Showcase?
  {
    if e.freeze then (r, Blocked("REDLINE_EXECUTION_FREEZE"))
    else if r.state != ReleaseReady || r.execution.None? then (r, Blocked("RELEASE_DEMO_EXECUTION_REQUIRED"))
    else
      var approval := if r.showcase.Some? then r.showcase else r.approval;
      var block := ExecutionBlock(r, approval, e.expired);
      if block.Some? then (r, Blocked(block.value))
      else if r.showcase.Some? then (r.(showcase := Some(Consumed(r.showcase.value))), Done)
      else (r.(approval := Some(Consumed(r.approval.value))), Done)
  }

  function Step(r: Release, e: Event): (Release, Answer) {
    match e
    case BindRun(runId, runs) =>
      if runId !in runs then (r, NotFound404)
      else if r.state == Killed then (r, Blocked("RELEASE_KILLED"))
      else Settle(r, Transition(r, Bound(r, runId, runs[runId])))
    case ImportSimulation(evidence) =>
      if Terminal(r.state) then (r, Conflict409) else Settle(r, Transition(r, Simulated(r, evidence)))
    case BindPolicy(p) =>
      if Terminal(r.state) then (r, Conflict409) else Settle(r, Transition(r, Governed(r, p)))
    case Approve(_, _, _, _, _) => ApproveStep(r, e)
    case Reject(who, comment) =>
      Settle(r, Transition(r, r.(state := Rejected, rejectReason := Some(comment),
                                 approval := Some(Approval(who.id, who.service, Fingerprint(r), None, false,
                                                           comment)))))
    case ExecuteDemo(_, _, _, _, _) => ExecuteStep(r, e)
    case Showcase(_, _) => ShowcaseStep(r, e)
    case Kill(at) => Settle(r, Transition(r, r.(state := Killed, killedAt := Some(at))))
    case Bundle(manifest) =>
      var tiered := WithTier(r);
      (if manifest.None? then tiered else tiered.(manifest := manifest), Done)
  }

  function Created(releaseId: string, strategyId: string, versionId: string, version: Value, createdBy: string,
                   liveGate: Option<LiveGate>, showcase: Option<Approval>): Release {
    Release(releaseId, strategyId, versionId, version, createdBy, Draft, L0, liveGate, showcase, None,
            None, None, None, None, None, None, None, None, None, None, None, None, None, None)
  }

  // ---------- the service ----------

  class ReleaseService {
    var row: Release
    var runs: Runs

    constructor (releaseId: string, strategyId: string, versionId: string, version: Value, createdBy: string,
                 liveGate: Option<LiveGate>, showcase: Option<Approval>)
      ensures row == Created(releaseId, strategyId, versionId, version, createdBy, liveGate, showcase) && runs == map[]
    {
      row := Created(releaseId, strategyId, versionId, version, createdBy, liveGate, showcase);
      runs := map[];
    }

    /** Store what `_transition_release_or_409` returns, or answer 409. */
    method Store(before: Release, updated: Release) returns (answer: Answer)
      modifies this`row
      ensures (row, answer) == (if Transition(before, updated).None? then (old(row), Conflict409)
                                else (Transition(before, updated).value, Done))
    {
      hide Transition;
      var next := TransitionReleaseOr409(before, updated);
      if next.None? { return Conflict409; }
      row := next.value;
      return Done;
    }

    method BindRunEndpoint(runId: string) returns (answer: Answer)
      modifies this`row
      ensures (row, answer) == Step(old(row), BindRun(runId, runs))
    {
      hide Transition;
      if runId !in runs { return NotFound404; }
      if row.state == Killed { return Blocked("RELEASE_KILLED"); }
      answer := Store(row, Bound(row, runId, runs[runId]));
    }

    method ImportSimulationEndpoint(evidence: Value) returns (answer: Answer)
      modifies this`row
      ensures (row, answer) == Step(old(row), ImportSimulation(evidence))
    {
      hide Transition;
      if Terminal(row.state) { return Conflict409; }
      answer := Store(row, Simulated(row, evidence));
    }

    method BindPolicyEndpoint(p: Policy) returns (answer: Answer)
      modifies this`row
      ensures (row, answer) == Step(old(row), BindPolicy(p))
    {
      hide Transition;
      if Terminal(row.state) { return Conflict409; }
      answer := Store(row, Governed(row, p));
    }

    method ApproveEndpoint(who: Principal, freeze: bool, nonce: string, comment: string) returns (answer: Answer)
      modifies this`row
      ensures (row, answer) == Step(old(row), Approve(who, freeze, nonce, comment, runs))
    {
      hide Transition, ApprovalBlock, Fingerprint;
      if freeze { return Blocked("REDLINE_RELEASE_FREEZE"); }
      if !who.mayApprove && !who.service { return Blocked("APPROVAL_ROLE_DENIED"); }
      if who.id == row.createdBy && !who.service { return Blocked("SELF_APPROVAL_FORBIDDEN"); }
      var block := ApprovalBlock(row, runs);
      if block.Some? { return Blocked(block.value); }
      var approval := NewApproval(row, who, nonce, comment);
      if row.state == ReleaseReady {
        row := row.(showcase := Some(approval));
        return Done;
      }
      answer := Store(row, row.(state := Approved, approval := Some(approval)));
    }

    method RejectEndpoint(who: Principal, comment: string) returns (answer: Answer)
      modifies this`row
      ensures (row, answer) == Step(old(row), Reject(who, comment))
    {
      hide Transition, Fingerprint;
      var record := Approval(who.id, who.service, Fingerprint(row), None, false, comment);
      answer := Store(row, row.(state := Rejected, rejectReason := Some(comment), approval := Some(record)));
    }

    /** `consume_release_approval`: mark the approval with this nonce, unless it is gone or used up. */
    method ConsumeReleaseApproval(nonce: string) returns (ok: bool)
      modifies this`row
      ensures ok <==>
        old(row).approval.Some? && old(row).approval.value.nonce == Some(nonce) && !old(row).approval.value.consumed
      ensures row == if ok then old(row).(approval := Some(Consumed(old(row).approval.value))) else old(row)
    {
      if row.approval.None? || row.approval.value.nonce != Some(nonce) || row.approval.value.consumed { return false; }
      row := row.(approval := Some(Consumed(row.approval.value)));
      return true;
    }

    method ConsumeReleaseShowcaseApproval(nonce: string) returns (ok: bool)
      modifies this`row
      ensures ok <==>
        old(row).showcase.Some? && old(row).showcase.value.nonce == Some(nonce) && !old(row).showcase.value.consumed
      ensures row == if ok then old(row).(showcase := Some(Consumed(old(row).showcase.value))) else old(row)
    {
      if row.showcase.None? || row.showcase.value.nonce != Some(nonce) || row.showcase.value.consumed { return false; }
      row := row.(showcase := Some(Consumed(row.showcase.value)));
      return true;
    }

    method ExecuteDemoEndpoint(freeze: bool, expired: bool, breach: bool, order: Order) returns (answer: Answer)
      modifies this`row
      ensures (row, answer) == Step(old(row), ExecuteDemo(freeze, expired, breach, order, runs))
    {
      hide Transition, Fingerprint;
      if freeze { return Blocked("REDLINE_EXECUTION_FREEZE"); }
      if row.execution.Some? { return Done; }
      if IsBlocked(row.state) { return Blocked(StateReason(row.state)); }
      if row.state != Approved { return Blocked("RELEASE_NOT_APPROVED"); }
      var block := ExecutionBlock(row, row.approval, expired);
      if block.Some? { return Blocked(block.value); }
      var consumed := ConsumeReleaseApproval(row.approval.value.nonce.value);
      assert consumed;
      if row.policy.None? { return Blocked("RISK_POLICY_REQUIRED"); }
      if breach {
        answer := Store(row, row.(state := BlockedRiskPolicy));
        return;
      }
      if row.run.None? { return Blocked("RUN_REQUIRED"); }
      if row.run.value !in runs { return NotFound404; }
      match order {
        case OrderFailed => answer := Store(row, row.(state := BlockedExchangeError));
        case EvidenceUnreadable => return Blocked("EXECUTION_EVIDENCE");
        case OrderPlaced(evidence) =>
          answer := Store(row, row.(state := ReleaseReady, executionRun := row.run, execution := Some(evidence),
                                    manifest := None));
      }
    }

    method ShowcaseEndpoint(freeze: bool, expired: bool) returns (answer: Answer)
      modifies this`row
      ensures (row, answer) == Step(old(row), Showcase(freeze, expired))
    {
      hide Fingerprint;
      if freeze { return Blocked("REDLINE_EXECUTION_FREEZE"); }
      if row.state != ReleaseReady || row.execution.None? { return Blocked("RELEASE_DEMO_EXECUTION_REQUIRED"); }
      var approval := if row.showcase.Some? then row.showcase else row.approval;
      var block := ExecutionBlock(row, approval, expired);
      if block.Some? { return Blocked(block.value); }
      var ok;
      if row.showcase.Some? { ok := ConsumeReleaseShowcaseApproval(row.showcase.value.nonce.value); }
      else { ok := ConsumeReleaseApproval(row.approval.value.nonce.value); }
      return Done;
    }

    method KillEndpoint(at: string) returns (answer: Answer)
      modifies this`row
      ensures (row, answer) == Step(old(row), Kill(at))
    {
      hide Transition;
      answer := Store(row, row.(state := Killed, killedAt := Some(at)));
    }

    /** `_ensure_release_evidence_bundle`: refresh the tier, then maybe the manifest. */
    method EnsureBundle(manifest: Option<Value>) returns (answer: Answer)
      modifies this`row
      ensures (row, answer) == Step(old(row), Bundle(manifest))
    {
      if row.tier != TierOf(row) { row := row.(tier := TierOf(row)); }
      if manifest.Some? { row := row.(manifest := manifest); }
      return Done;
    }
  }

  // ---------- what every run keeps ----------

  /** The approval is for exactly the evidence the release now carries, and not by its creator. */
  ghost predicate Vouched(r: Release) {
    && r.approval.Some? && r.approval.value.fingerprint == Fingerprint(r)
    && (r.approval.value.service || r.approval.value.reviewer != r.createdBy)
  }

  ghost predicate Invariant(r: Release) {
    && r.state !in {DemoExecuted, ReleasedDemo, ReleasedLiveGated, BlockedApproval}
    && (r.state in {ReviewRequired, Approved, ReleaseReady} ==> MissingFor(r, r.state) == [] && HasRedlinePass(r))
    && (r.state in {Approved, ReleaseReady} ==> Vouched(r))
    && (r.state in {Draft, RedlineRunning, RedlinePassed, EvidenceCollecting, ReviewRequired} ==> r.approval.None?)
    && (r.simulation.Some? <==> r.simulationHash.Some?)
    && r.policyHash == (if r.policy.None? then None else Some(PolicyDigest(r.policy.value)))
    && (r.execution.Some? <==> r.executionRun.Some?)
    && (r.execution.Some? ==> r.state in {ReleaseReady, Killed} && r.executionRun == r.run)
    && (r.state == ReleaseReady ==> r.execution.Some? && r.approval.value.consumed)
    && r.tier == TierOf(r)
  }

  /** What a transition can give: the updated record, or the same record blocked. */
  lemma {:induction false} TransitionShape(r: Release, u: Release)
    requires Transition(r, u).Some?
    ensures u.state == r.state || (!Terminal(r.state) && u.state in Successors(r.state))
    ensures var next := Transition(r, u).value;
      if MissingFor(u, u.state) == [] then next == WithTier(u)
      else u.state in {ReviewRequired, Approved, ReleaseReady, ReleasedDemo, ReleasedLiveGated} &&
           next == WithTier(u.(state := BlockedMissingEvidence, noted := Some(MissingFor(u, u.state))))
  {
  }

  lemma {:induction false} TierIgnoresTier(r: Release, t: Tier)
    ensures TierOf(r.(tier := t)) == TierOf(r) && Fingerprint(r.(tier := t)) == Fingerprint(r)
  {
  }

  lemma {:induction false} MissingIgnores(r: Release, t: Tier)
    requires r.state in {ReviewRequired, Approved, ReleaseReady}
    ensures MissingFor(r.(tier := t), r.state) == MissingFor(r, r.state)
  {
    hide Note;
  }

  lemma {:induction false} CreatedInvariant(releaseId: string, strategyId: string, versionId: string, version: Value,
                                            createdBy: string,
                                            liveGate: Option<LiveGate>, showcase: Option<Approval>)
    ensures Invariant(Created(releaseId, strategyId, versionId, version, createdBy, liveGate, showcase))
  {
  }

  lemma {:induction false} BindKeeps(r: Release, e: Event)
    requires Invariant(r) && e.BindRun?
    ensures Invariant(Step(r, e).0)
  {
    hide MissingFor, Fingerprint, PolicyDigest, Transition;
    if e.runId in e.runs && r.state != Killed {
      var u := Bound(r, e.runId, e.runs[e.runId]);
      if Transition(r, u).Some? {
        TransitionShape(r, u);
        TierIgnoresTier(u, TierOf(u));
      }
    }
  }

  /** New evidence for a release that is not ready: its approval is dropped with it. */
  lemma {:induction false} EvidenceKeeps(r: Release, u: Release)
    requires Invariant(r) && !Terminal(r.state) && u.state in {ReviewRequired, EvidenceCollecting, BlockedRiskPolicy}
    requires u == r.(state := u.state, simulation := u.simulation, simulationHash := u.simulationHash,
                     policy := u.policy,
                     policyHash := u.policyHash, approval := None, manifest := None)
    requires (u.simulation.Some? <==> u.simulationHash.Some?)
    requires u.policyHash == (if u.policy.None? then None else Some(PolicyDigest(u.policy.value)))
    requires u.state == ReviewRequired ==> HasRedlinePass(u)
    ensures Invariant(Settle(r, Transition(r, u)).0)
  {
    hide MissingFor, Fingerprint, PolicyDigest, Transition;
    if Transition(r, u).Some? {
      TransitionShape(r, u);
      TierIgnoresTier(u, TierOf(u));
      if u.state == ReviewRequired { MissingIgnores(u, TierOf(u)); }
    }
  }

  lemma {:induction false} PolicyKeeps(r: Release, e: Event)
    requires Invariant(r) && e.BindPolicy?
    ensures Invariant(Step(r, e).0)
  {
    hide Fingerprint, Transition, Settle, TierOf, MissingFor;
    if !Terminal(r.state) { EvidenceKeeps(r, Governed(r, e.bound)); }
  }

  lemma {:induction false} SimulationKeeps(r: Release, e: Event)
    requires Invariant(r) && e.ImportSimulation?
    ensures Invariant(Step(r, e).0)
  {
    hide Fingerprint, Transition, Settle, TierOf, MissingFor;
    if !Terminal(r.state) { EvidenceKeeps(r, Simulated(r, e.evidence)); }
  }

  lemma {:induction false} ShownKeeps(r: Release, approval: Approval)
    requires Invariant(r) && r.state == ReleaseReady
    ensures Invariant(r.(showcase := Some(approval)))
  {
    hide MissingFor, PolicyDigest, Fingerprint;
    var q := r.(showcase := Some(approval));
    MissingSame(q, r, r.state);
    FingerprintBinds(q, r);
  }

  lemma {:induction false} ApprovedKeeps(r: Release, who: Principal, nonce: string, comment: string)
    requires Invariant(r) && (who.service || who.id != r.createdBy)
    ensures var u := r.(state := Approved, approval := Some(NewApproval(r, who, nonce, comment)));
      Invariant(Settle(r, Transition(r, u)).0)
  {
    hide MissingFor, PolicyDigest, Transition, Fingerprint;
    var u := r.(state := Approved, approval := Some(NewApproval(r, who, nonce, comment)));
    if Transition(r, u).Some? {
      TransitionShape(r, u);
      TierIgnoresTier(u, TierOf(u));
      MissingIgnores(u, TierOf(u));
      FingerprintBinds(u, r);
    }
  }

  lemma {:induction false} ApproveKeeps(r: Release, e: Event)
    requires Invariant(r) && e.Approve?
    ensures Invariant(Step(r, e).0)
  {
    hide Invariant, Transition, ApprovalBlock, Settle, NewApproval;
    if r.state == ReleaseReady { ShownKeeps(r, NewApproval(r, e.who, e.nonce, e.comment)); }
    if e.who.service || e.who.id != r.createdBy { ApprovedKeeps(r, e.who, e.nonce, e.comment); }
  }

  /** What is missing depends on the evidence alone. */
  lemma {:induction false} MissingSame(r: Release, q: Release, target: State)
    requires r.run == q.run && r.reason == q.reason && r.receiptHash == q.receiptHash && r.reportHash == q.reportHash
    requires r.policy == q.policy && r.policyHash == q.policyHash && r.simulation == q.simulation &&
      r.simulationHash == q.simulationHash
    requires (r.approval.Some? <==> q.approval.Some?) && (r.execution.Some? <==> q.execution.Some?)
    requires (r.executionRun.Some? <==> q.executionRun.Some?) && target != ReleasedLiveGated
    ensures MissingFor(r, target) == MissingFor(q, target)
  {
    hide Note;
  }

  /** An approved release whose approval is used up, on its way through execute-demo. */
  ghost predicate Spent(r: Release) {
    Invariant(r) && r.state == Approved && r.approval.value.consumed
  }

  lemma {:induction false} ConsumeSpends(r: Release)
    requires Invariant(r) && r.state == Approved
    ensures r.approval.Some? && Spent(r.(approval := Some(Consumed(r.approval.value))))
  {
  }

  lemma {:induction false} BlockedKeeps(r: Release, target: State)
    requires Spent(r) && target in {BlockedRiskPolicy, BlockedExchangeError}
    ensures Invariant(Settle(r, Transition(r, r.(state := target))).0)
  {
    hide MissingFor, PolicyDigest, Transition, Fingerprint;
    var u := r.(state := target);
    if Transition(r, u).Some? {
      TransitionShape(r, u);
      TierIgnoresTier(u, TierOf(u));
    }
  }

  lemma {:induction false} PlacedKeeps(r: Release, evidence: Value)
    requires Spent(r)
    ensures Transition(r, Executed(r, evidence)) == Some(WithTier(Executed(r, evidence)))
    ensures Invariant(WithTier(Executed(r, evidence)))
  {
    hide MissingFor, PolicyDigest, Fingerprint;
    var u := Executed(r, evidence);
    NothingBlocksReady(r, u);
    assert Fingerprint(u) == Fingerprint(r) by { FingerprintBinds(u, r); }
    TierIgnoresTier(u, TierOf(u));
    MissingIgnores(u, TierOf(u));
  }

  lemma {:induction false} ExecuteKeeps(r: Release, e: Event)
    requires Invariant(r) && e.ExecuteDemo?
    ensures Invariant(Step(r, e).0)
  {
    hide MissingFor, PolicyDigest, Transition, Invariant, Settle;
    if !e.freeze && r.execution.None? && r.state == Approved && ExecutionBlock(r, r.approval, e.expired).None? {
      ConsumeSpends(r);
      var r1 := r.(approval := Some(Consumed(r.approval.value)));
      BlockedKeeps(r1, BlockedRiskPolicy);
      BlockedKeeps(r1, BlockedExchangeError);
      if e.order.OrderPlaced? {
        PlacedKeeps(r1, e.order.evidence);
        SettleSome(r1, WithTier(Executed(r1, e.order.evidence)));
      }
    }
  }

  lemma {:induction false} SettleSome(r: Release, next: Release)
    ensures Settle(r, Some(next)) == (next, Done)
  {
  }

  /** An approved release that gets its execution evidence lacks nothing for RELEASE_READY. */
  lemma {:induction false} NothingBlocksReady(r: Release, u: Release)
    requires r.state == Approved && MissingFor(r, Approved) == [] && r.run.Some? && r.approval.Some?
    requires u.execution.Some? && u == Executed(r, u.execution.value)
    ensures MissingFor(u, ReleaseReady) == []
  {
  }

  lemma {:induction false} EndedKeeps(r: Release, u: Release)
    requires Invariant(r) && u.state in {Killed, Rejected} &&
      (r.state == Killed && r.execution.Some? ==> u.state == Killed)
    requires u == r.(state := u.state, killedAt := u.killedAt, rejectReason := u.rejectReason, approval := u.approval)
    ensures Invariant(Settle(r, Transition(r, u)).0)
  {
    hide MissingFor, PolicyDigest, Transition, Fingerprint;
    if Transition(r, u).Some? {
      TransitionShape(r, u);
      TierIgnoresTier(u, TierOf(u));
    }
  }

  lemma {:induction false} EndKeeps(r: Release, e: Event)
    requires Invariant(r) && (e.Reject? || e.Kill?)
    ensures Invariant(Step(r, e).0)
  {
    hide Transition, Settle, Fingerprint;
    if r.state in {ReleaseReady, Killed} && e.Reject? {
      RejectRefused(r, r.(state := Rejected, rejectReason := Some(e.comment),
                          approval := Some(Approval(e.who.id, e.who.service, Fingerprint(r), None, false, e.comment))));
    } else {
      hide Invariant;
      EndedKeeps(r, if e.Kill? then r.(state := Killed, killedAt := Some(e.at))
                    else r.(state := Rejected, rejectReason := Some(e.comment),
                            approval := Some(Approval(e.who.id, e.who.service, Fingerprint(r), None, false,
                                                      e.comment))));
    }
  }

  lemma {:induction false} RejectRefused(r: Release, u: Release)
    requires r.state in {ReleaseReady, Killed} && u.state == Rejected
    ensures Settle(r, Transition(r, u)).0 == r
  {
  }

  lemma {:induction false} ShowcaseKeeps(r: Release, e: Event)
    requires Invariant(r) && e.Showcase?
    ensures Invariant(Step(r, e).0)
  {
    hide MissingFor, PolicyDigest, Fingerprint;
    var q := Step(r, e).0;
    if q != r {
      MissingSame(q, r, r.state);
      assert Fingerprint(q) == Fingerprint(r) by { FingerprintBinds(q, r); }
    }
  }

  lemma {:induction false} BundleKeeps(r: Release, e: Event)
    requires Invariant(r) && e.Bundle?
    ensures Invariant(Step(r, e).0)
  {
    hide MissingFor, PolicyDigest, Fingerprint;
    var q := Step(r, e).0;
    if r.state in {ReviewRequired, Approved, ReleaseReady} { MissingSame(q, r, r.state); }
    assert Fingerprint(q) == Fingerprint(r) by { FingerprintBinds(q, r); }
  }

  lemma {:induction false} StepKeeps(r: Release, e: Event)
    requires Invariant(r)
    ensures Invariant(Step(r, e).0)
  {
    hide Invariant, Step;
    match e {
      case BindRun(_, _) => BindKeeps(r, e);
      case ImportSimulation(_) => SimulationKeeps(r, e);
      case BindPolicy(_) => PolicyKeeps(r, e);
      case Approve(_, _, _, _, _) => ApproveKeeps(r, e);
      case ExecuteDemo(_, _, _, _, _) => ExecuteKeeps(r, e);
      case Showcase(_, _) => ShowcaseKeeps(r, e);
      case Bundle(_) => BundleKeeps(r, e);
      case _ => EndKeeps(r, e);
    }
  }

  // ---------- theorems ----------

  function After(start: Release, events: seq<Event>): Release {
    if events == [] then start else Step(After(start, events[..|events| - 1]), events[|events| - 1]).0
  }

  /** Over every run of endpoint calls: a release in review, approved or ready lacks no evidence for that
      state; an approved or ready one carries an approval for exactly its present evidence, given by someone
      other than its creator; and the tier is always the computed one. */
  lemma {:induction false} EveryRunKeeps(start: Release, events: seq<Event>)
    requires Invariant(start)
    ensures Invariant(After(start, events))
  {
    hide Invariant, Step;
    if events != [] {
      EveryRunKeeps(start, events[..|events| - 1]);
      StepKeeps(After(start, events[..|events| - 1]), events[|events| - 1]);
    }
  }

  /** The tier only tells a demo execution with simulation evidence apart; L2 is out of reach. */
  lemma {:induction false} TierMeaning(r: Release)
    requires Invariant(r)
    ensures r.tier != L2
    ensures r.state == ReleaseReady ==> (r.tier == L1 <==> r.simulation.Some?)
    ensures r.state != ReleaseReady && r.state != Killed ==> r.tier == L0
  {
  }

  /** No endpoint, taken as one step, leaves a terminal state - though the record itself may still change. */
  lemma {:induction false} TerminalStays(r: Release, e: Event)
    requires Terminal(r.state)
    ensures Step(r, e).0.state == r.state
  {
    hide Transition, TierOf, Fingerprint, PolicyDigest, ApprovalBlock, ExecutionBlock;
    forall u: Release {:trigger Transition(r, u)} | Transition(r, u).Some? &&
      u.state !in {ReleasedDemo, ReleasedLiveGated}
      ensures Transition(r, u).value.state == r.state
    {
      TransitionShape(r, u);
      NothingAsked(u);
    }
  }

  lemma {:induction false} NothingAsked(u: Release)
    ensures u.state !in {ReviewRequired, Approved, ReleaseReady, ReleasedDemo, ReleasedLiveGated} ==>
      MissingFor(u, u.state) == []
  {
  }

  function RejectRecord(r: Release, who: Principal, comment: string): Approval {
    Approval(who.id, who.service, Fingerprint(r), None, false, comment)
  }

  /** The calls that change the record of a terminal release: one that repeats its state with something new. */
  predicate Rewrites(r: Release, e: Event) {
    match e
    case BindRun(id, runs) =>
      && id in runs && r.state != Killed && StateForBoundRun(runs[id]) == r.state
      && !(Binding(r) == (Some(id), runs[id].reason, runs[id].receiptHash, runs[id].reportHash) && r.approval.None? &&
           r.manifest.None?)
    case Reject(who, comment) =>
      r.state == Rejected && !(r.rejectReason == Some(comment) && r.approval == Some(RejectRecord(r, who, comment)))
    case Kill(at) => r.state == Killed && r.killedAt != Some(at)
    case Bundle(manifest) => manifest.Some? && r.manifest != manifest
    case _ => false
  }

  lemma {:induction false} SameStateTransition(r: Release, u: Release)
    requires Terminal(r.state) && r.state !in {ReleasedDemo, ReleasedLiveGated} &&
      u.state !in {ReleasedDemo, ReleasedLiveGated}
    ensures Transition(r, u) == if u.state == r.state then Some(WithTier(u)) else None
  {
    hide TierOf;
    if u.state == r.state { NothingAsked(u); }
  }

  lemma {:induction false} BindRewritesExactly(r: Release, e: Event)
    requires Invariant(r) && Terminal(r.state) && e.BindRun?
    ensures Step(r, e).0 == r <==> !Rewrites(r, e)
  {
    hide MissingFor, Fingerprint, PolicyDigest, TierOf, Transition;
    if e.runId in e.runs { SameStateTransition(r, Bound(r, e.runId, e.runs[e.runId])); }
  }

  lemma {:induction false} EndRewritesExactly(r: Release, e: Event)
    requires Invariant(r) && Terminal(r.state) && (e.Reject? || e.Kill?)
    ensures Step(r, e).0 == r <==> !Rewrites(r, e)
  {
    hide MissingFor, Fingerprint, PolicyDigest, TierOf, Transition;
    if e.Kill? {
      SameStateTransition(r, r.(state := Killed, killedAt := Some(e.at)));
      TierIgnoresStamp(r, e.at);
    } else {
      SameStateTransition(r, r.(state := Rejected, rejectReason := Some(e.comment),
                                approval := Some(RejectRecord(r, e.who, e.comment))));
    }
  }

  lemma {:induction false} RestRewritesExactly(r: Release, e: Event)
    requires Invariant(r) && Terminal(r.state) && !e.BindRun? && !e.Reject? && !e.Kill?
    ensures Step(r, e).0 == r <==> !Rewrites(r, e)
  {
    hide MissingFor, Fingerprint, PolicyDigest, TierOf, Transition, ApprovalBlock, ExecutionBlock;
    if e.Approve? {
      SameStateTransition(r, r.(state := Approved, approval := Some(NewApproval(r, e.who, e.nonce, e.comment))));
    }
  }

  /** Over every reachable terminal release: the record stays exactly as it is unless the call repeats the
      release's own state with something new, or attaches another manifest. */
  lemma {:induction false} TerminalRecordExactly(r: Release, e: Event)
    requires Invariant(r) && Terminal(r.state)
    ensures Step(r, e).0 == r <==> !Rewrites(r, e)
  {
    hide Step, Rewrites, Invariant;
    if e.BindRun? { BindRewritesExactly(r, e); }
    else if e.Reject? || e.Kill? { EndRewritesExactly(r, e); }
    else { RestRewritesExactly(r, e); }
  }

  lemma {:induction false} TierIgnoresStamp(r: Release, at: string)
    ensures TierOf(r.(killedAt := Some(at))) == TierOf(r)
  {
  }

  predicate Frozen(s: State) { s in {EvidenceCollecting, ReviewRequired, Approved, ReleaseReady} }

  /** What a Redline run bound. */
  function Binding(r: Release): (Option<string>, Option<string>, Option<string>, Option<string>) {
    (r.run, r.reason, r.receiptHash, r.reportHash)
  }

  /** The binding of a release that collects evidence or is past that never changes: whatever is called,
      and even on the way to a blocked or killed state. */
  lemma {:induction false} BindingFrozen(r: Release, e: Event)
    requires Frozen(r.state)
    ensures Binding(Step(r, e).0) == Binding(r)
  {
    hide MissingFor, Fingerprint, PolicyDigest, TierOf, Transition, ApprovalBlock;
    forall q: Release, u: Release {:trigger Transition(q, u)} | Transition(q, u).Some?
      ensures Binding(Transition(q, u).value) == Binding(u)
      ensures u.state == q.state || u.state in Successors(q.state)
    {
      TransitionShape(q, u);
    }
  }

  lemma {:induction false} BindingFrozenOverRuns(start: Release, events: seq<Event>, i: nat)
    requires i <= |events| && forall k: nat :: i <= k < |events| ==> Frozen(After(start, events[..k]).state)
    ensures Binding(After(start, events)) == Binding(After(start, events[..i]))
  {
    hide Step, Frozen;
    if i < |events| {
      var front := events[..|events| - 1];
      forall k: nat | i <= k < |front| ensures Frozen(After(start, front[..k]).state) {
        assert front[..k] == events[..k];
      }
      BindingFrozenOverRuns(start, front, i);
      assert front[..i] == events[..i];
      BindingFrozen(After(start, front), events[|events| - 1]);
    } else {
      assert events[..i] == events;
    }
  }

  /** Collecting evidence without a bound Redline pass, or finished. */
  predicate Stuck(r: Release) {
    (r.state == EvidenceCollecting && !HasRedlinePass(r)) || Terminal(r.state)
  }

  lemma {:induction false} StuckStays(r: Release, e: Event)
    requires Stuck(r)
    ensures Stuck(Step(r, e).0)
  {
    hide MissingFor, Fingerprint, PolicyDigest, TierOf, Transition, ApprovalBlock;
    if Terminal(r.state) {
      TerminalStays(r, e);
    } else {
      BindingFrozen(r, e);
      forall u: Release {:trigger Transition(r, u)} | Transition(r, u).Some?
        ensures u.state in Successors(EvidenceCollecting)
        ensures Transition(r, u).value.state in {u.state, BlockedMissingEvidence}
      {
        TransitionShape(r, u);
      }
    }
  }

  /** A release that starts collecting evidence before a Redline pass is bound never reaches review. */
  lemma {:induction false} UnboundNeverReviewed(start: Release, events: seq<Event>)
    requires start.state == EvidenceCollecting && !HasRedlinePass(start)
    ensures After(start, events).state !in {ReviewRequired, Approved, ReleaseReady}
  {
    StuckOverRuns(start, events);
  }

  lemma {:induction false} StuckOverRuns(start: Release, events: seq<Event>)
    requires Stuck(start)
    ensures Stuck(After(start, events))
  {
    hide Step, Stuck;
    if events != [] {
      StuckOverRuns(start, events[..|events| - 1]);
      StuckStays(After(start, events[..|events| - 1]), events[|events| - 1]);
    }
  }

  /** Exactly what approves a release. */
  lemma {:induction false} ApprovedExactly(r: Release, e: Event)
    requires Invariant(r) && e.Approve? && r.state != ReleaseReady
    ensures Step(r, e).1 == Done <==>
      && r.state in {ReviewRequired, Approved} && !e.freeze
      && (e.who.service || (e.who.mayApprove && e.who.id != r.createdBy))
      && r.run.value in e.runs && StateForBoundRun(e.runs[r.run.value]) == RedlinePassed
      && e.runs[r.run.value].receiptHash == r.receiptHash && !r.policy.value.breach
    ensures Step(r, e).1 == Done ==>
      Step(r, e).0 == WithTier(r.(state := Approved, approval := Some(NewApproval(r, e.who, e.nonce, e.comment))))
    ensures Step(r, e).1 != Done ==> Step(r, e).0 == r
  {
    hide MissingFor, Fingerprint, PolicyDigest, TierOf;
    var u := r.(state := Approved, approval := Some(NewApproval(r, e.who, e.nonce, e.comment)));
    MissingForExactly(u, Approved);
    if r.state in {ReviewRequired, Approved} { MissingForExactly(r, r.state); }
  }

  function Used(r: Release): Release
    requires r.approval.Some?
  {
    r.(approval := Some(Consumed(r.approval.value)))
  }

  /** What execute-demo makes of an approved release once its approval is used up. */
  function ExecuteOutcome(r: Release, e: Event): Release
    requires e.ExecuteDemo? && r.approval.Some? && r.run.Some?
  {
    if e.breach then WithTier(Used(r).(state := BlockedRiskPolicy))
    else if r.run.value !in e.runs || e.order.EvidenceUnreadable? then Used(r)
    else if e.order.OrderFailed? then WithTier(Used(r).(state := BlockedExchangeError))
    else WithTier(Executed(Used(r), e.order.evidence))
  }

  lemma {:induction false} BlockingTransition(r: Release, target: State)
    requires target in {BlockedRiskPolicy, BlockedExchangeError} && r.state == Approved
    ensures Settle(r, Transition(r, r.(state := target))).0 == WithTier(r.(state := target))
  {
    hide TierOf;
    NothingAsked(r.(state := target));
  }

  /** Every outcome of execute-demo on an approved release. */
  lemma {:induction false} ExecuteOutcomes(r: Release, e: Event)
    requires Invariant(r) && r.state == Approved && e.ExecuteDemo?
    ensures r.approval.Some? && r.run.Some?
    ensures Step(r, e).0 ==
      if e.freeze || e.expired || r.approval.value.consumed || !Truthy(r.approval.value.nonce) then r
        else ExecuteOutcome(r, e)
  {
    hide MissingFor, PolicyDigest, TierOf, Fingerprint, Transition, Settle, WithTier, Executed;
    MissingForExactly(r, Approved);
    BlockingTransition(Used(r), BlockedRiskPolicy);
    BlockingTransition(Used(r), BlockedExchangeError);
    if e.order.OrderPlaced? {
      ConsumeSpends(r);
      PlacedKeeps(Used(r), e.order.evidence);
      SettleSome(Used(r), WithTier(Executed(Used(r), e.order.evidence)));
    }
  }

  /** Exactly what makes a release ready: a placed demo order on a fresh, unexpired approval within policy. */
  lemma {:induction false} OnlyExecutionReadies(r: Release, e: Event)
    requires r.state != ReleaseReady && !e.ExecuteDemo?
    ensures Step(r, e).0.state != ReleaseReady
  {
    hide MissingFor, Fingerprint, PolicyDigest, TierOf, Transition, ApprovalBlock, ExecutionBlock;
    forall u: Release {:trigger Transition(r, u)} | Transition(r, u).Some? && u.state != ReleaseReady
      ensures Transition(r, u).value.state != ReleaseReady
    {
      TransitionShape(r, u);
    }
  }

  lemma {:induction false} ReadyExactly(r: Release, e: Event)
    requires Invariant(r) && r.state != ReleaseReady
    ensures Step(r, e).0.state == ReleaseReady <==>
      && e.ExecuteDemo? && r.state == Approved && !e.freeze && !e.expired && !e.breach && e.order.OrderPlaced?
      && !r.approval.value.consumed && Truthy(r.approval.value.nonce) && r.run.value in e.runs
  {
    if !e.ExecuteDemo? {
      OnlyExecutionReadies(r, e);
    } else if r.state == Approved {
      hide Step, TierOf, Invariant;
      ExecuteOutcomes(r, e);
    }
  }

  /** Call `i` approved the release as it now stands: it named this nonce, on the same evidence. */
  ghost predicate ApprovedBy(start: Release, events: seq<Event>, i: nat, r: Release) {
    && i < |events| && events[i].Approve?
    && r.approval.Some? && r.approval.value.nonce == Some(events[i].nonce) &&
      r.approval.value.reviewer == events[i].who.id
    && (events[i].who.service || events[i].who.id != r.createdBy)
    && Fingerprint(After(start, events[..i])) == Fingerprint(r)
  }

  ghost predicate ExecutedBy(start: Release, events: seq<Event>, j: nat, r: Release) {
    && j < |events| && events[j].ExecuteDemo? && !events[j].expired && !events[j].breach
    && events[j].order == OrderPlaced(if r.execution.Some? then r.execution.value else Null)
    && After(start, events[..j]).state == Approved
  }

  /** How a release got where it is. */
  ghost predicate Explained(start: Release, events: seq<Event>, r: Release) {
    && (r.state == Approved ==> exists i: nat :: ApprovedBy(start, events, i, r))
    && (r.state == ReleaseReady ==>
          exists i: nat, j: nat :: i < j && ApprovedBy(start, events, i, r) && ExecutedBy(start, events, j, r))
  }

  lemma {:induction false} HistoryExtends(start: Release, events: seq<Event>, e: Event, i: nat)
    ensures i <= |events| ==> After(start, (events + [e])[..i]) == After(start, events[..i])
    ensures i < |events| ==> (events + [e])[i] == events[i]
  {
    if i <= |events| { assert (events + [e])[..i] == events[..i]; }
  }

  /** The approval is the same but for being used up, and so is the evidence it vouches for. */
  ghost predicate SameGrant(r: Release, q: Release) {
    && Fingerprint(q) == Fingerprint(r) && q.createdBy == r.createdBy
    && r.approval.Some? && q.approval.Some?
    && q.approval.value.nonce == r.approval.value.nonce && q.approval.value.reviewer == r.approval.value.reviewer
  }

  ghost predicate Grants(r: Release, e: Event, q: Release) {
    && q.state == Approved && e.Approve? && q.approval.Some?
    && q.approval.value.nonce == Some(e.nonce) && q.approval.value.reviewer == e.who.id
    && (e.who.service || e.who.id != q.createdBy) && Fingerprint(q) == Fingerprint(r)
  }

  ghost predicate Executes(r: Release, e: Event, q: Release) {
    && q.state == ReleaseReady && r.state == Approved && e.ExecuteDemo? && !e.expired && !e.breach
    && q.execution.Some? && e.order == OrderPlaced(q.execution.value) && SameGrant(r, q)
  }

  ghost predicate Preserves(r: Release, q: Release) {
    q.state == r.state && q.execution == r.execution && SameGrant(r, q)
  }

  lemma {:induction false} ApproveExplains(r: Release, e: Event)
    requires Invariant(r) && e.Approve? && Step(r, e).0.state in {Approved, ReleaseReady}
    ensures Grants(r, e, Step(r, e).0) || Preserves(r, Step(r, e).0)
  {
    hide MissingFor, PolicyDigest, TierOf, Fingerprint, Transition, ApprovalBlock;
    var q := Step(r, e).0;
    FingerprintBinds(q, r);
    if r.state != ReleaseReady {
      ApprovedExactly(r, e);
      var u := r.(state := Approved, approval := Some(NewApproval(r, e.who, e.nonce, e.comment)));
      if Step(r, e).1 == Done { FingerprintBinds(WithTier(u), r); }
    }
  }

  lemma {:induction false} ExecuteExplains(r: Release, e: Event)
    requires Invariant(r) && e.ExecuteDemo? && Step(r, e).0.state in {Approved, ReleaseReady}
    ensures Executes(r, e, Step(r, e).0) || Preserves(r, Step(r, e).0)
  {
    hide MissingFor, PolicyDigest, TierOf, Fingerprint, Transition, Executes, Preserves;
    if r.state == Approved && Step(r, e).0.state == Approved { ConsumedPreserves(r, e); }
    else if r.state == Approved { ExecutedExplains(r, e); }
    else { UnexecutedPreserves(r); }
  }

  lemma {:induction false} UnexecutedPreserves(r: Release)
    requires Invariant(r) && r.state in {Approved, ReleaseReady}
    ensures Preserves(r, r)
  {
  }

  /** A call that stops after its consume step leaves the release approved, with the approval used up at most. */
  lemma {:induction false} ConsumedPreserves(r: Release, e: Event)
    requires Invariant(r) && e.ExecuteDemo? && r.state == Approved && Step(r, e).0.state == Approved
    ensures Preserves(r, Step(r, e).0)
  {
    hide Step, TierOf, Fingerprint, Invariant;
    ExecuteOutcomes(r, e);
    FingerprintBinds(Used(r), r);
  }

  lemma {:induction false} ExecutedExplains(r: Release, e: Event)
    requires Invariant(r) && e.ExecuteDemo? && r.state == Approved && Step(r, e).0.state == ReleaseReady
    ensures Executes(r, e, Step(r, e).0)
  {
    hide Step, TierOf, Fingerprint, Invariant;
    ExecuteOutcomes(r, e);
    if e.order.OrderPlaced? { FingerprintBinds(WithTier(Executed(Used(r), e.order.evidence)), r); }
  }

  lemma {:induction false} RestExplains(r: Release, e: Event)
    requires Invariant(r) && !e.Approve? && !e.ExecuteDemo? && Step(r, e).0.state in {Approved, ReleaseReady}
    ensures Preserves(r, Step(r, e).0)
  {
    hide Step, Preserves, Invariant;
    match e {
      case Showcase(_, _) =>
        SideStepsStay(r, e);
        ShowcasePreserves(r, e);
      case Bundle(_) =>
        SideStepsStay(r, e);
        BundlePreserves(r, e);
      case _ =>
        StaysOrLeaves(r, e);
        UnexecutedPreserves(r);
    }
  }

  lemma {:induction false} ShowcasePreserves(r: Release, e: Event)
    requires Invariant(r) && e.Showcase? && r.state in {Approved, ReleaseReady}
    ensures Preserves(r, Step(r, e).0)
  {
    hide MissingFor, PolicyDigest, TierOf, Fingerprint;
    FingerprintBinds(Step(r, e).0, r);
  }

  lemma {:induction false} BundlePreserves(r: Release, e: Event)
    requires Invariant(r) && e.Bundle? && r.state in {Approved, ReleaseReady}
    ensures Preserves(r, Step(r, e).0)
  {
    hide MissingFor, PolicyDigest, TierOf, Fingerprint;
    FingerprintBinds(Step(r, e).0, r);
  }

  lemma {:induction false} SideStepsStay(r: Release, e: Event)
    requires e.Showcase? || e.Bundle?
    ensures Step(r, e).0.state == r.state
  {
    hide TierOf, Fingerprint;
  }

  /** The other endpoints never end in an approved or ready state that the release was not already in. */
  lemma {:induction false} StaysOrLeaves(r: Release, e: Event)
    requires e.BindRun? || e.ImportSimulation? || e.BindPolicy? || e.Reject? || e.Kill?
    requires Step(r, e).0.state in {Approved, ReleaseReady}
    ensures Step(r, e).0 == r
  {
    hide MissingFor, PolicyDigest, TierOf, Fingerprint, Transition;
    forall u: Release {:trigger Transition(r, u)} | Transition(r, u).Some?
      ensures Transition(r, u).value.state in {u.state, BlockedMissingEvidence}
    {
      TransitionShape(r, u);
    }
  }

  /** Over every run: a ready release was approved by one call - on exactly the evidence it carries now, by
      someone other than its creator - and then executed by a later one, while it was approved. */
  lemma {:induction false} ReadyWasApproved(start: Release, events: seq<Event>)
    requires Invariant(start) && start.state == Draft
    ensures Explained(start, events, After(start, events))
  {
    hide Invariant, Step, Fingerprint, SameGrant, NewApproval;
    if events != [] {
      var front, e := events[..|events| - 1], events[|events| - 1];
      assert events == front + [e];
      ReadyWasApproved(start, front);
      EveryRunKeeps(start, front);
      ExplainStep(start, front, e);
    }
  }

  lemma {:induction false} ExplainStep(start: Release, front: seq<Event>, e: Event)
    requires Invariant(After(start, front)) && Explained(start, front, After(start, front))
    ensures Explained(start, front + [e], After(start, front + [e]))
  {
    hide Invariant, Step, Fingerprint, SameGrant;
    var events, r, q := front + [e], After(start, front), Step(After(start, front), e).0;
    assert events[..|front|] == front && After(start, events) == q;
    if q.state in {Approved, ReleaseReady} {
      assert Grants(r, e, q) || Executes(r, e, q) || Preserves(r, q) by {
        if e.Approve? { ApproveExplains(r, e); } else if e.ExecuteDemo? { ExecuteExplains(r, e); }
          else { RestExplains(r, e); }
      }
      if Grants(r, e, q) {
        assert ApprovedBy(start, events, |front|, q);
      } else {
        var i: nat :| ApprovedBy(start, front, i, r) &&
          (r.state == ReleaseReady ==> exists j: nat :: i < j && ExecutedBy(start, front, j, r));
        CarryApproval(start, front, e, i, r, q);
        if r.state == ReleaseReady {
          var j: nat :| i < j && ExecutedBy(start, front, j, r);
          CarryExecution(start, front, e, j, r, q);
        } else if q.state == ReleaseReady {
          assert ExecutedBy(start, events, |front|, q);
        }
      }
    }
  }

  lemma {:induction false} CarryApproval(start: Release, front: seq<Event>, e: Event, i: nat, r: Release, q: Release)
    requires ApprovedBy(start, front, i, r) && SameGrant(r, q)
    ensures i < |front| && ApprovedBy(start, front + [e], i, q)
  {
    hide After, Fingerprint;
    HistoryExtends(start, front, e, i);
  }

  lemma {:induction false} CarryExecution(start: Release, front: seq<Event>, e: Event, j: nat, r: Release, q: Release)
    requires ExecutedBy(start, front, j, r) && q.execution == r.execution
    ensures ExecutedBy(start, front + [e], j, q)
  {
    hide After, Fingerprint;
    HistoryExtends(start, front, e, j);
  }
}
