/** Every endpoint of a release, call by call: which states it goes through in, the record it leaves, and the answer -
    written out state by state, without the transition table of `service/transitions.py`. */
module Endpoints {
  import opened Wrappers
  import opened Digests
  import opened Transitions
  import opened Lifecycle

  // ---------- evidence and tier ----------

  /** A bound run with the reason PASS, a receipt hash and a report hash. */
  predicate PassOnRecord(r: Release) {
    r.run.Some? && r.reason == Some("PASS") && r.receiptHash.Some? && r.receiptHash.value != "" &&
    r.reportHash.Some? && r.reportHash.value != ""
  }

  /** What the state lacks, item by item; a policy that is not there asks for everything. */
  ghost predicate Lacks(r: Release, target: State, item: Missing) {
    match item
    case RedlinePass => !PassOnRecord(r)
    case RiskPolicy => r.policy.None? || r.policyHash.None?
    case SimulationEvidence =>
      (r.policy.Some? ==> r.policy.value.requireSimulation) && (r.simulation.None? || r.simulationHash.None?)
    case HumanApproval =>
      target != ReviewRequired && (r.policy.Some? ==> r.policy.value.requireApproval) && r.approval.None?
    case DemoExecution =>
      target !in {ReviewRequired, Approved} && (r.policy.Some? ==> r.policy.value.requireDemo) &&
      (r.execution.None? || r.executionRun.None?)
    case L1Tier => target == ReleasedLiveGated && r.tier == L0
    case MainnetPolicy => target == ReleasedLiveGated && (r.policy.None? || !r.policy.value.mainnet)
    case LiveGateControls => target == ReleasedLiveGated && r.liveGate.None?
    case ConfirmMainnetOrder => target == ReleasedLiveGated && r.liveGate.Some? && !r.liveGate.value.confirm
    case AllowLiveGated => target == ReleasedLiveGated && r.liveGate.Some? && !r.liveGate.value.allow
    case ReleaseManager => target == ReleasedLiveGated && r.liveGate.Some? && r.liveGate.value.manager.None?
    case SecondReviewer =>
      target == ReleasedLiveGated && r.liveGate.Some? && (
        || r.liveGate.value.reviewer.None? || r.liveGate.value.reviewer == r.liveGate.value.manager
        || r.liveGate.value.reviewer == Some(r.createdBy))
  }

  /** The order in which missing items are listed. */
  function Rank(item: Missing): nat {
    match item
    case RedlinePass => 0
    case RiskPolicy => 1
    case SimulationEvidence => 2
    case HumanApproval => 3
    case DemoExecution => 4
    case L1Tier => 5
    case MainnetPolicy => 6
    case LiveGateControls => 7
    case ConfirmMainnetOrder => 8
    case AllowLiveGated => 9
    case ReleaseManager => 10
    case SecondReviewer => 11
  }

  predicate Asks(target: State) {
    target in {ReviewRequired, Approved, ReleaseReady, ReleasedDemo, ReleasedLiveGated}
  }

  /** Everything that is missing and nothing else, once each, in that order. */
  ghost predicate ListsMissing(items: seq<Missing>, r: Release, target: State) {
    && (forall item :: item in items <==> Asks(target) && Lacks(r, target, item))
    && (forall i, j :: 0 <= i < j < |items| ==> Rank(items[i]) < Rank(items[j]))
  }

  /** A list under construction: what has been listed, of the items up to a rank. */
  ghost predicate Upto(items: seq<Missing>, r: Release, target: State, rank: int) {
    && (forall item :: item in items <==> Rank(item) < rank && Lacks(r, target, item))
    && (forall i, j :: 0 <= i < j < |items| ==> Rank(items[i]) < Rank(items[j]))
  }

  lemma {:induction false} NoteUpto(items: seq<Missing>, r: Release, target: State, item: Missing, c: bool)
    requires Upto(items, r, target, Rank(item)) && (c <==> Lacks(r, target, item))
    ensures Upto(Note(items, c, item), r, target, Rank(item) + 1)
  {
    forall other ensures Rank(other) < Rank(item) + 1 <==> Rank(other) < Rank(item) || other == item {
      SameRank(other, item);
    }
    assert forall i :: 0 <= i < |items| ==> items[i] in items;
  }

  lemma {:induction false} SameRank(a: Missing, b: Missing)
    ensures Rank(a) == Rank(b) <==> a == b
  {
  }

  lemma {:induction false} GateUpto(r: Release, before: seq<Missing>)
    requires Upto(before, r, ReleasedLiveGated, 5)
    ensures Upto(MissingGate(r, before), r, ReleasedLiveGated, 12)
  {
    hide Upto, Lacks;
    var target := ReleasedLiveGated;
    LacksGate(r);
    var m1 := Note(before, r.tier !in {L1, L2}, L1Tier);
    var m2 := Note(m1, !Mainnet(r), MainnetPolicy);
    NoteUpto(before, r, target, L1Tier, r.tier !in {L1, L2});
    NoteUpto(m1, r, target, MainnetPolicy, !Mainnet(r));
    NoteUpto(m2, r, target, LiveGateControls, r.liveGate.None?);
    ControlsUpto(r, Note(m2, r.liveGate.None?, LiveGateControls));
  }

  /** The controls inside the gate, which are not looked at when there is none. */
  function Controls(r: Release, before: seq<Missing>): seq<Missing> {
    if r.liveGate.None? then before
    else
      var g := r.liveGate.value;
      var m1 := Note(before, !g.confirm, ConfirmMainnetOrder);
      var m2 := Note(m1, !g.allow, AllowLiveGated);
      Note(Note(m2, g.manager.None?, ReleaseManager), NoSecondReviewer(r, g), SecondReviewer)
  }

  lemma {:induction false} ControlsUpto(r: Release, before: seq<Missing>)
    requires Upto(before, r, ReleasedLiveGated, 8)
    ensures Upto(Controls(r, before), r, ReleasedLiveGated, 12)
  {
    hide Upto, Lacks, NoSecondReviewer;
    var target := ReleasedLiveGated;
    LacksGate(r);
    if r.liveGate.None? {
      NoControls(r, before);
    } else {
      var g := r.liveGate.value;
      var m1 := Note(before, !g.confirm, ConfirmMainnetOrder);
      var m2 := Note(m1, !g.allow, AllowLiveGated);
      var m3 := Note(m2, g.manager.None?, ReleaseManager);
      NoteUpto(before, r, target, ConfirmMainnetOrder, !g.confirm);
      NoteUpto(m1, r, target, AllowLiveGated, !g.allow);
      NoteUpto(m2, r, target, ReleaseManager, g.manager.None?);
      NoteUpto(m3, r, target, SecondReviewer, NoSecondReviewer(r, g));
    }
  }

  lemma {:induction false} NoControls(r: Release, before: seq<Missing>)
    requires r.liveGate.None? && Upto(before, r, ReleasedLiveGated, 8)
    ensures Upto(before, r, ReleasedLiveGated, 12)
  {
  }

  lemma {:induction false} LacksGate(r: Release)
    ensures var target := ReleasedLiveGated;
      && (Lacks(r, target, L1Tier) <==> r.tier !in {L1, L2}) && (Lacks(r, target, MainnetPolicy) <==> !Mainnet(r))
      && (Lacks(r, target, LiveGateControls) <==> r.liveGate.None?)
      && (r.liveGate.None? ==> forall item :: Rank(item) > 7 ==> !Lacks(r, target, item))
      && (r.liveGate.Some? ==>
            var g := r.liveGate.value;
            && (Lacks(r, target, ConfirmMainnetOrder) <==> !g.confirm)
            && (Lacks(r, target, AllowLiveGated) <==> !g.allow)
            && (Lacks(r, target, ReleaseManager) <==> g.manager.None?)
            && (Lacks(r, target, SecondReviewer) <==> NoSecondReviewer(r, g)))
  {
  }

  /** What the transition check reports as missing. */
  lemma {:induction false} MissingExactly(r: Release, target: State)
    ensures ListsMissing(MissingFor(r, target), r, target)
  {
    hide Upto, Lacks, MissingGate, LacksPolicy, LacksSimulation, LacksApproval, LacksDemo, PassBound, ListsMissing,
      Note;
    if Asks(target) {
      var before := EvidenceNoted(r, target);
      EvidenceUpto(r, target);
      if target == ReleasedLiveGated { GateUpto(r, before); } else { NoGate(r, target, before); }
      AllListed(MissingFor(r, target), r, target);
    } else {
      NothingAsked(r, target);
    }
  }

  lemma {:induction false} NothingAsked(r: Release, target: State)
    requires !Asks(target)
    ensures ListsMissing([], r, target)
  {
  }

  /** What is noted before the gate. */
  function EvidenceNoted(r: Release, target: State): seq<Missing> {
    var m1 := Note([], !PassBound(r), RedlinePass);
    var m2 := Note(m1, LacksPolicy(r), RiskPolicy);
    var m3 := Note(m2, LacksSimulation(r), SimulationEvidence);
    var m4 := Note(m3, PastReview(target) && LacksApproval(r), HumanApproval);
    Note(m4, PastApproval(target) && LacksDemo(r), DemoExecution)
  }

  lemma {:induction false} EvidenceUpto(r: Release, target: State)
    requires Asks(target)
    ensures Upto(EvidenceNoted(r, target), r, target, 5)
  {
    hide Upto, Lacks, LacksPolicy, LacksSimulation, LacksApproval, LacksDemo, PassBound, Note, PastReview, PastApproval;
    LacksEvidence(r, target);
    var m1 := Note([], !PassBound(r), RedlinePass);
    var m2 := Note(m1, LacksPolicy(r), RiskPolicy);
    var m3 := Note(m2, LacksSimulation(r), SimulationEvidence);
    var m4 := Note(m3, PastReview(target) && LacksApproval(r), HumanApproval);
    NothingYet(r, target);
    NoteUpto([], r, target, RedlinePass, !PassBound(r));
    NoteUpto(m1, r, target, RiskPolicy, LacksPolicy(r));
    NoteUpto(m2, r, target, SimulationEvidence, LacksSimulation(r));
    NoteUpto(m3, r, target, HumanApproval, PastReview(target) && LacksApproval(r));
    NoteUpto(m4, r, target, DemoExecution, PastApproval(target) && LacksDemo(r));
  }

  lemma {:induction false} NothingYet(r: Release, target: State)
    ensures Upto([], r, target, 0)
  {
  }

  lemma {:induction false} NoGate(r: Release, target: State, items: seq<Missing>)
    requires target != ReleasedLiveGated && Upto(items, r, target, 5)
    ensures Upto(items, r, target, 12)
  {
  }

  lemma {:induction false} AllListed(items: seq<Missing>, r: Release, target: State)
    requires Asks(target) && Upto(items, r, target, 12)
    ensures ListsMissing(items, r, target)
  {
  }

  lemma {:induction false} LacksEvidence(r: Release, target: State)
    requires Asks(target)
    ensures (Lacks(r, target, RedlinePass) <==> !PassBound(r)) && (Lacks(r, target, RiskPolicy) <==> LacksPolicy(r))
    ensures Lacks(r, target, SimulationEvidence) <==> LacksSimulation(r)
    ensures Lacks(r, target, HumanApproval) <==> PastReview(target) && LacksApproval(r)
    ensures Lacks(r, target, DemoExecution) <==> PastApproval(target) && LacksDemo(r)
  {
  }

  /** The tier a record deserves. */
  ghost predicate TierFits(r: Release) {
    && (r.tier == L2 <==> r.state == ReleasedLiveGated && GateOpen(r))
    && (r.tier == L1 <==> r.tier != L2 && Evidenced1(r))
  }

  /** Every control of the live gate, given by two people other than the creator's own second look. */
  ghost predicate GateOpen(r: Release) {
    && r.policy.Some? && r.policy.value.mainnet && r.liveGate.Some? && r.liveGate.value.confirm &&
      r.liveGate.value.allow
    && r.liveGate.value.manager.Some? && r.liveGate.value.reviewer.Some?
    && r.liveGate.value.reviewer != r.liveGate.value.manager && r.liveGate.value.reviewer != Some(r.createdBy)
  }

  /** A verified pass, simulation evidence, a policy and a demo execution. */
  ghost predicate Evidenced1(r: Release) {
    && r.run.Some? && r.run.value != "" && r.reason == Some("PASS") && r.receiptHash.Some? && r.receiptHash.value != ""
    && r.simulation.Some? && r.simulationHash.Some? && r.policy.Some? && r.policyHash.Some?
    && r.execution.Some? && r.executionRun.Some? && r.executionRun.value != ""
  }

  lemma {:induction false} TierExactly(r: Release)
    ensures TierFits(r) <==> r.tier == TierOf(r)
    ensures TierOf(r) == TierOf(r.(tier := L0))
  {
  }

  // ---------- moving a release ----------

  /** The record as it is to be stored: with the tier it deserves. */
  ghost predicate Stored(q: Release, u: Release) {
    q == u.(tier := q.tier) && TierFits(q)
  }

  /** The record as it is stored when evidence is missing. */
  ghost predicate StoredBlocked(q: Release, u: Release, target: State) {
    && q.noted.Some? && q == u.(state := BlockedMissingEvidence, noted := q.noted, tier := q.tier) && TierFits(q)
    && q.noted.value != [] && ListsMissing(q.noted.value, u, target)
  }

  lemma {:induction false} StoresWithTier(u: Release)
    ensures Stored(WithTier(u), u)
  {
    TierExactly(WithTier(u));
    TierExactly(u);
    TierIgnoresTier(u, TierOf(u));
  }

  /** What storing an allowed move leaves. */
  lemma {:induction false} Moves(r: Release, u: Release)
    requires u.state == r.state || (!Terminal(r.state) && u.state in Successors(r.state))
    ensures Settle(r, Transition(r, u)).1 == Done
    ensures var q := Settle(r, Transition(r, u)).0;
      if MissingFor(u, u.state) == [] then Stored(q, u) else StoredBlocked(q, u, u.state)
  {
    hide MissingFor, TierOf, TierFits, Terminal, Successors;
    StoresWithTier(u);
    MissingExactly(u, u.state);
    StoresWithTier(u.(state := BlockedMissingEvidence, noted := Some(MissingFor(u, u.state))));
  }

  lemma {:induction false} Refuses(r: Release, u: Release)
    requires u.state != r.state && (Terminal(r.state) || u.state !in Successors(r.state))
    ensures Settle(r, Transition(r, u)) == (r, Conflict409)
  {
  }

  lemma {:induction false} NothingMissing(u: Release)
    requires !Asks(u.state)
    ensures MissingFor(u, u.state) == []
  {
  }

  /** From which other states a state can be reached. */
  function Sources(target: State): set<State> {
    match target
    case RedlineRunning => {Draft}
    case RedlinePassed => {Draft, RedlineRunning}
    case EvidenceCollecting => {Draft, RedlinePassed, Approved}
    case ReviewRequired => {RedlinePassed, EvidenceCollecting, Approved}
    case Approved => {ReviewRequired}
    case ReleaseReady => {Approved, DemoExecuted}
    case ReleasedDemo => {ReleaseReady}
    case ReleasedLiveGated => {ReleaseReady}
    case Rejected => {ReviewRequired}
    case Killed =>
      {Draft, RedlineRunning, RedlinePassed, EvidenceCollecting, ReviewRequired, Approved, DemoExecuted, ReleaseReady}
    case BlockedMissingEvidence =>
      {Draft, RedlineRunning, RedlinePassed, EvidenceCollecting, ReviewRequired, Approved}
    case BlockedWithheld => {Draft, RedlineRunning}
    case BlockedUnverified => {Draft, RedlineRunning}
    case BlockedRiskPolicy => {RedlinePassed, EvidenceCollecting, Approved}
    case BlockedExchangeError => {Approved}
    case _ => {}
  }

  /** The whole table, read from its targets: a record moves exactly from a source of its new state or within its state,
      and is stored with its tier, or blocked for what that state still lacks. */
  lemma {:induction false} TransitionExactly(r: Release, u: Release)
    ensures var next := Transition(r, u);
      if r.state == u.state || r.state in Sources(u.state) then
        && next.Some?
        && if forall item :: !(Asks(u.state) && Lacks(u, u.state, item)) then Stored(next.value, u)
           else StoredBlocked(next.value, u, u.state)
      else next.None?
  {
    hide MissingFor, TierOf, Lacks, Stored, StoredBlocked, Transition;
    SourcesAre(r.state, u.state);
    if r.state == u.state || r.state in Sources(u.state) {
      Moves(r, u);
      assert Transition(r, u).Some? by { Allows(r, u); }
      MissingExactly(u, u.state);
      var items := MissingFor(u, u.state);
      if items != [] { assert items[0] in items; }
    } else {
      Forbids(r, u);
    }
  }

  lemma {:induction false} SourcesAre(from: State, to: State)
    ensures from in Sources(to) || (from == to && to == EvidenceCollecting) <==>
      !Terminal(from) && to in Successors(from)
  {
  }

  lemma {:induction false} Allows(r: Release, u: Release)
    requires u.state == r.state || (!Terminal(r.state) && u.state in Successors(r.state))
    ensures Transition(r, u).Some?
  {
    hide MissingFor, TierOf;
  }

  lemma {:induction false} Forbids(r: Release, u: Release)
    requires u.state != r.state && (Terminal(r.state) || u.state !in Successors(r.state))
    ensures Transition(r, u).None?
  {
    hide MissingFor, TierOf;
  }

  /** A new release is a draft of tier L0 with nothing bound to it. */
  lemma {:induction false} CreatedExactly(releaseId: string, strategyId: string, versionId: string, version: Value,
                                          createdBy: string, liveGate: Option<LiveGate>, showcase: Option<Approval>)
    ensures var r := Created(releaseId, strategyId, versionId, version, createdBy, liveGate, showcase);
      && r.releaseId == releaseId && r.strategyId == strategyId && r.versionId == versionId && r.version == version
      && r.createdBy == createdBy && r.liveGate == liveGate && r.showcase == showcase
      && r.state == Draft && r.tier == L0 && r.noted.None? && r.run.None? && r.reason.None? && r.receiptHash.None?
      && r.reportHash.None? && r.simulation.None? && r.simulationHash.None? && r.policy.None? && r.policyHash.None?
      && r.approval.None? && r.executionRun.None? && r.execution.None? && r.manifest.None? && r.rejectReason.None?
      && r.killedAt.None? && TierFits(r)
  {
  }

  /** The states a release can still leave. */
  predicate Open(s: State) {
    s in {Draft, RedlineRunning, RedlinePassed, EvidenceCollecting, ReviewRequired, Approved, DemoExecuted,
          ReleaseReady}
  }

  /** Terminal is what is not open, and that is exactly a state without another one to go to. */
  lemma {:induction false} TerminalExactly(s: State)
    ensures Terminal(s) <==> !Open(s)
    ensures Open(s) <==> exists target :: target != s && s in Sources(target)
  {
    if Open(s) { assert s in Sources(Killed); }
  }

  /** A kill gets through exactly in an open state or on a release that is killed already; it changes state, time
      and tier and nothing else. */
  lemma {:induction false} KillExactly(r: Release, at: string)
    ensures var (q, answer) := Step(r, Kill(at));
      if Open(r.state) || r.state == Killed then answer == Done && Stored(q, r.(state := Killed, killedAt := Some(at)))
      else answer == Conflict409 && q == r
  {
    hide TierOf, TierFits, Transition, MissingFor, Stored;
    var u := r.(state := Killed, killedAt := Some(at));
    NothingMissing(u);
    if Open(r.state) || r.state == Killed { Moves(r, u); } else { Refuses(r, u); }
  }

  /** A rejection gets through exactly in review or on a rejected release; it leaves the reviewer's record, for the
      evidence as it stands and without a nonce. */
  lemma {:induction false} RejectExactly(r: Release, who: Principal, comment: string)
    ensures var (q, answer) := Step(r, Reject(who, comment));
      if r.state in {ReviewRequired, Rejected} then
        && answer == Done
        && Stored(q, r.(state := Rejected, rejectReason := Some(comment),
                        approval := Some(Approval(who.id, who.service, Fingerprint(r), None, false, comment))))
      else answer == Conflict409 && q == r
  {
    hide TierOf, TierFits, Transition, MissingFor, Stored, Fingerprint;
    var u := r.(state := Rejected, rejectReason := Some(comment),
                approval := Some(Approval(who.id, who.service, Fingerprint(r), None, false, comment)));
    NothingMissing(u);
    if r.state in {ReviewRequired, Rejected} { Moves(r, u); } else { Refuses(r, u); }
  }

  /** What a run makes of a release: still running, passed, withheld, or not verified. */
  ghost predicate BindsTo(run: Run, target: State) {
    match target
    case RedlineRunning => run.state in {Queued, Running}
    case RedlinePassed =>
      run.state == RunPass && run.reason == Some("PASS") && run.receiptHash.Some? && run.receiptHash.value != ""
    case BlockedWithheld => run.state in {RunFail, Amber}
    case BlockedUnverified =>
      run.state == RunError ||
      (run.state == RunPass &&
       (run.reason != Some("PASS") || run.receiptHash.None? || run.receiptHash.value == ""))
    case _ => false
  }

  /** A run is bound exactly to a draft, to a release that waits for its run, and to one that is in the state
      already. */
  lemma {:induction false} BindRunExactly(r: Release, id: string, runs: Runs, target: State)
    requires id in runs ==> BindsTo(runs[id], target)
    ensures var (q, answer) := Step(r, BindRun(id, runs));
      if id !in runs then answer == NotFound404 && q == r
      else if r.state == Killed then answer == Blocked("RELEASE_KILLED") && q == r
      else if r.state in {Draft, RedlineRunning, target} then
        && answer == Done
        && Stored(q, r.(state := target, run := Some(id), reason := runs[id].reason,
                        receiptHash := runs[id].receiptHash,
                        reportHash := runs[id].reportHash, approval := None, manifest := None))
      else answer == Conflict409 && q == r
  {
    hide TierOf, TierFits, Transition, MissingFor, Stored;
    if id in runs && r.state != Killed {
      var u := Bound(r, id, runs[id]);
      NothingMissing(u);
      if r.state in {Draft, RedlineRunning, target} { Moves(r, u); } else { Refuses(r, u); }
    }
  }

  /** Every run binds to exactly one state. */
  lemma {:induction false} OneTarget(run: Run)
    ensures exists target :: BindsTo(run, target)
    ensures forall a, b :: BindsTo(run, a) && BindsTo(run, b) ==> a == b
  {
    assert BindsTo(run, StateForBoundRun(run));
  }

  /** A pass the tier rule recognises: it does not look at the report. */
  predicate PassKnown(r: Release) {
    r.run.Some? && r.run.value != "" && r.reason == Some("PASS") && r.receiptHash.Some? && r.receiptHash.value != ""
  }

  /** What storing a release for review comes to: review when its report hash and the hashes of policy and simulation
      are there, blocked for missing evidence otherwise. */
  ghost predicate GoesToReview(q: Release, u: Release) {
    if forall item :: !Lacks(u, ReviewRequired, item) then Stored(q, u) else StoredBlocked(q, u, ReviewRequired)
  }

  lemma {:induction false} ReviewStored(r: Release, u: Release)
    requires u.state == ReviewRequired && r.state in {RedlinePassed, EvidenceCollecting, ReviewRequired, Approved}
    ensures Settle(r, Transition(r, u)).1 == Done && GoesToReview(Settle(r, Transition(r, u)).0, u)
  {
    hide Lacks, Stored, StoredBlocked, Transition, MissingFor;
    Moves(r, u);
    MissingExactly(u, ReviewRequired);
    var items := MissingFor(u, ReviewRequired);
    if items != [] { assert items[0] in items; }
  }

  /** Simulation evidence: with a policy and a pass it asks for review, otherwise it is only collected. */
  lemma {:induction false} ImportExactly(r: Release, evidence: Value)
    ensures var (q, answer) := Step(r, ImportSimulation(evidence));
      var review := r.policy.Some? && PassKnown(r);
      var u := r.(state := if review then ReviewRequired else EvidenceCollecting, simulation := Some(evidence),
                  simulationHash := Some(HashObj(Rec("simulation", [evidence]))), approval := None, manifest := None);
      if review && r.state in {RedlinePassed, EvidenceCollecting, ReviewRequired, Approved} then
        answer == Done && GoesToReview(q, u)
      else if !review && r.state in {Draft, RedlinePassed, EvidenceCollecting, Approved} then
        answer == Done && Stored(q, u)
      else answer == Conflict409 && q == r
  {
    hide TierOf, TierFits, Transition, MissingFor, Stored, GoesToReview;
    var u := Simulated(r, evidence);
    if !Terminal(r.state) {
      if u.state == ReviewRequired && r.state in {RedlinePassed, EvidenceCollecting, ReviewRequired, Approved} {
        ReviewStored(r, u);
      } else if u.state == EvidenceCollecting && r.state in {Draft, RedlinePassed, EvidenceCollecting, Approved} {
        NothingMissing(u);
        Moves(r, u);
      } else {
        Refuses(r, u);
      }
    }
  }

  function PolicyHash(p: Policy): Digest {
    HashObj(Rec("policy", [Flag(p.requireSimulation), Flag(p.requireDemo), Flag(p.requireApproval), Flag(p.mainnet),
                           p.body]))
  }

  /** A policy: one that is breached blocks the release; with a pass and simulation evidence it asks for review;
      otherwise it is only collected. */
  lemma {:induction false} PolicyExactly(r: Release, p: Policy)
    ensures var (q, answer) := Step(r, BindPolicy(p));
      var target := if p.breach then BlockedRiskPolicy
                    else if PassKnown(r) && r.simulation.Some? then ReviewRequired else EvidenceCollecting;
      var u := r.(state := target, policy := Some(p), policyHash := Some(PolicyHash(p)), approval := None,
                  manifest := None);
      if target == BlockedRiskPolicy && r.state in {RedlinePassed, EvidenceCollecting, Approved} then
        answer == Done && Stored(q, u)
      else if target == ReviewRequired && r.state in {RedlinePassed, EvidenceCollecting, ReviewRequired, Approved} then
        answer == Done && GoesToReview(q, u)
      else if target == EvidenceCollecting && r.state in {Draft, RedlinePassed, EvidenceCollecting, Approved} then
        answer == Done && Stored(q, u)
      else answer == Conflict409 && q == r
  {
    hide TierOf, TierFits, Transition, MissingFor, Stored, GoesToReview;
    var u := Governed(r, p);
    if !Terminal(r.state) {
      if u.state == ReviewRequired && r.state in {RedlinePassed, EvidenceCollecting, ReviewRequired, Approved} {
        ReviewStored(r, u);
      } else if u.state == BlockedRiskPolicy && r.state in {RedlinePassed, EvidenceCollecting, Approved} {
        NothingMissing(u);
        Moves(r, u);
      } else if u.state == EvidenceCollecting && r.state in {Draft, RedlinePassed, EvidenceCollecting, Approved} {
        NothingMissing(u);
        Moves(r, u);
      } else {
        Refuses(r, u);
      }
    }
  }

  /** The bundle only refreshes the tier, and the manifest when there is one. */
  lemma {:induction false} BundleExactly(r: Release, manifest: Option<Value>)
    ensures var (q, answer) := Step(r, Bundle(manifest));
      answer == Done && Stored(q, r.(manifest := if manifest.Some? then manifest else r.manifest))
  {
    hide TierOf;
    StoresWithTier(r);
    ManifestNoTier(WithTier(r), manifest);
  }

  lemma {:induction false} ManifestNoTier(r: Release, manifest: Option<Value>)
    ensures TierFits(r.(manifest := manifest)) <==> TierFits(r)
  {
  }

  // ---------- checks in order ----------

  type Checks = seq<(bool, string)>

  /** The first check that fails gives the reason. */
  ghost predicate FirstReason(checks: Checks, k: nat) {
    k < |checks| && checks[k].0 && forall i :: 0 <= i < k ==> !checks[i].0
  }

  ghost predicate NoneFails(checks: Checks) {
    forall i :: 0 <= i < |checks| ==> !checks[i].0
  }

  /** The checks of an approval for an order. */
  function ExecutionChecks(r: Release, approval: Option<Approval>, expired: bool): Checks {
    [(approval.None? || approval.value.fingerprint != Fingerprint(r), "APPROVAL_EVIDENCE_CHANGED"),
     (approval.Some? && approval.value.consumed, "APPROVAL_CONSUMED"),
     (expired, "APPROVAL_EXPIRED"),
     (approval.Some? && (approval.value.nonce.None? || approval.value.nonce.value == ""), "APPROVAL_EVIDENCE_CHANGED")]
  }

  lemma {:induction false} ExecutionBlockExactly(r: Release, approval: Option<Approval>, expired: bool)
    ensures var checks := ExecutionChecks(r, approval, expired);
      && (forall k: nat :: FirstReason(checks, k) ==> ExecutionBlock(r, approval, expired) == Some(checks[k].1))
      && (NoneFails(checks) <==> ExecutionBlock(r, approval, expired).None?)
  {
    hide Fingerprint;
    var c := ExecutionChecks(r, approval, expired);
    assert NoneFails(c) <==> !c[0].0 && !c[1].0 && !c[2].0 && !c[3].0;
  }

  /** The checks of an approval endpoint, in order: who asks, then what the release has. */
  function ApprovalChecks(r: Release, e: Event): Checks
    requires e.Approve?
  {
    var run := if r.run.Some? && r.run.value in e.runs then e.runs[r.run.value] else Run(RunError, None, None, None);
    [(e.freeze, "REDLINE_RELEASE_FREEZE"),
     (!e.who.mayApprove && !e.who.service, "APPROVAL_ROLE_DENIED"),
     (e.who.id == r.createdBy && !e.who.service, "SELF_APPROVAL_FORBIDDEN"),
     (r.state == Killed, "KILLED"), (r.state == Rejected, "REJECTED"),
     (r.state == BlockedWithheld, "BLOCKED_WITHHELD"), (r.state == BlockedUnverified, "BLOCKED_UNVERIFIED"),
     (r.state == BlockedRiskPolicy, "BLOCKED_RISK_POLICY"),
     (r.state == BlockedExchangeError, "BLOCKED_EXCHANGE_ERROR"),
     (r.run.None?, "RUN_REQUIRED"),
     (r.run.Some? && r.run.value !in e.runs, "RUN_NOT_FOUND"),
     (run.state != RunPass || run.reason != Some("PASS") || run.receiptHash.None? || run.receiptHash.value == "",
      "REDLINE_VERIFIED_PASS_REQUIRED"),
     (r.receiptHash != run.receiptHash, "REDLINE_RECEIPT_REQUIRED"),
     (r.policy.None? || r.policyHash.None?, "RISK_POLICY_REQUIRED"),
     (r.policy.Some? && r.policy.value.breach, "RISK_POLICY_BREACH"),
     (r.policy.Some? && r.policy.value.requireSimulation && r.simulation.None?, "SIMULATION_EVIDENCE_REQUIRED")]
  }

  lemma {:induction false} ApprovalBlocks(r: Release, e: Event, k: nat)
    requires e.Approve? && FirstReason(ApprovalChecks(r, e), k)
    ensures Step(r, e) == (r, Blocked(ApprovalChecks(r, e)[k].1))
  {
    hide ApprovalBlock, NewApproval, Settle;
    var c := ApprovalChecks(r, e);
    assert (k > 0 ==> !c[0].0) && (k > 1 ==> !c[1].0) && (k > 2 ==> !c[2].0);
    if k >= 9 { EvidenceBlocks(r, e, k); } else if k >= 3 { StateBlocks(r, e, k); }
  }

  lemma {:induction false} StateBlocks(r: Release, e: Event, k: nat)
    requires e.Approve? && 3 <= k < 9 && ApprovalChecks(r, e)[k].0
    ensures ApprovalBlock(r, e.runs) == Some(ApprovalChecks(r, e)[k].1)
  {
  }

  lemma {:induction false} EvidenceBlocks(r: Release, e: Event, k: nat)
    requires e.Approve? && 9 <= k && FirstReason(ApprovalChecks(r, e), k)
    ensures ApprovalBlock(r, e.runs) == Some(ApprovalChecks(r, e)[k].1)
  {
    var c := ApprovalChecks(r, e);
    assert !c[3].0 && !c[4].0 && !c[5].0 && !c[6].0 && !c[7].0 && !c[8].0;
    assert (k > 9 ==> !c[9].0) && (k > 10 ==> !c[10].0) && (k > 11 ==> !c[11].0) && (k > 12 ==> !c[12].0)
      && (k > 13 ==> !c[13].0) && (k > 14 ==> !c[14].0);
  }

  lemma {:induction false} ApprovalPasses(r: Release, e: Event)
    requires e.Approve? && NoneFails(ApprovalChecks(r, e))
    ensures var approval := NewApproval(r, e.who, e.nonce, e.comment);
      Step(r, e) == if r.state == ReleaseReady then (r.(showcase := Some(approval)), Done)
                    else Settle(r, Transition(r, r.(state := Approved, approval := Some(approval))))
    ensures r.state !in {Killed, Rejected, BlockedWithheld, BlockedUnverified, BlockedRiskPolicy, BlockedExchangeError}
  {
    hide Transition, Fingerprint;
    var c := ApprovalChecks(r, e);
    assert !c[0].0 && !c[1].0 && !c[2].0 && !c[3].0 && !c[4].0 && !c[5].0 && !c[6].0 && !c[7].0;
    assert !c[8].0 && !c[9].0 && !c[10].0 && !c[11].0 && !c[12].0 && !c[13].0 && !c[14].0 && !c[15].0;
  }

  /** The approval a call gives: the reviewer's, for the evidence as it stands, unused, under the call's nonce. */
  function Given(r: Release, e: Event): Approval
    requires e.Approve?
  {
    Approval(e.who.id, e.who.service, Fingerprint(r), Some(e.nonce), false, e.comment)
  }

  /** An approval is refused for the first check that fails.  Otherwise it becomes the showcase approval of a ready
      release, approves a release in review or approved already - or blocks it for what is still missing - and is a
      conflict in every other state. */
  lemma {:induction false} ApproveExactly(r: Release, e: Event)
    requires e.Approve?
    ensures forall k: nat :: FirstReason(ApprovalChecks(r, e), k) ==>
      Step(r, e) == (r, Blocked(ApprovalChecks(r, e)[k].1))
    ensures NoneFails(ApprovalChecks(r, e)) ==>
      var (q, answer) := Step(r, e);
      var u := r.(state := Approved, approval := Some(Given(r, e)));
      if r.state == ReleaseReady then answer == Done && q == r.(showcase := Some(Given(r, e)))
      else if r.state in {ReviewRequired, Approved} then
        && answer == Done
        && if forall item :: !Lacks(u, Approved, item) then Stored(q, u) else StoredBlocked(q, u, Approved)
      else answer == Conflict409 && q == r
  {
    hide Step, Transition, Fingerprint, MissingFor, Stored, StoredBlocked, Lacks, ApprovalChecks;
    forall k: nat | FirstReason(ApprovalChecks(r, e), k) ensures Step(r, e) == (r, Blocked(ApprovalChecks(r, e)[k].1)) {
      ApprovalBlocks(r, e, k);
    }
    if NoneFails(ApprovalChecks(r, e)) {
      ApprovalPasses(r, e);
      var u := r.(state := Approved, approval := Some(Given(r, e)));
      if r.state in {ReviewRequired, Approved} {
        Moves(r, u);
        MissingExactly(u, Approved);
        var items := MissingFor(u, Approved);
        if items != [] { assert items[0] in items; }
      } else if r.state != ReleaseReady {
        Refuses(r, u);
      }
    }
  }

  /** The checks of execute-demo before anything is used up; a release with execution evidence is done already. */
  function ExecuteChecks(r: Release, e: Event): Checks
    requires e.ExecuteDemo?
  {
    [(r.state == BlockedWithheld, "BLOCKED_WITHHELD"), (r.state == BlockedUnverified, "BLOCKED_UNVERIFIED"),
     (r.state == BlockedMissingEvidence, "BLOCKED_MISSING_EVIDENCE"),
     (r.state == BlockedRiskPolicy, "BLOCKED_RISK_POLICY"), (r.state == BlockedApproval, "BLOCKED_APPROVAL"),
     (r.state == BlockedExchangeError, "BLOCKED_EXCHANGE_ERROR"), (r.state != Approved, "RELEASE_NOT_APPROVED")]
    + ExecutionChecks(r, r.approval, e.expired)
  }

  lemma {:induction false} ExecuteBlocks(r: Release, e: Event, k: nat)
    requires e.ExecuteDemo? && !e.freeze && r.execution.None? && FirstReason(ExecuteChecks(r, e), k)
    ensures Step(r, e) == (r, Blocked(ExecuteChecks(r, e)[k].1))
  {
    hide ExecutionBlock, ExecutionChecks, Settle, Executed;
    var c := ExecuteChecks(r, e);
    assert k >= 6 ==> !c[0].0 && !c[1].0 && !c[2].0 && !c[3].0 && !c[4].0 && !c[5].0;
    if k >= 7 {
      assert !c[6].0;
      LaterChecks(r, e, k);
    }
  }

  lemma {:induction false} LaterChecks(r: Release, e: Event, k: nat)
    requires e.ExecuteDemo? && 7 <= k && FirstReason(ExecuteChecks(r, e), k)
    ensures ExecutionBlock(r, r.approval, e.expired) == Some(ExecuteChecks(r, e)[k].1)
  {
    hide ExecutionBlock, ExecutionChecks;
    var c, later := ExecuteChecks(r, e), ExecutionChecks(r, r.approval, e.expired);
    assert forall i :: 0 <= i < |later| ==> later[i] == c[7 + i];
    assert FirstReason(later, k - 7);
    ExecutionBlockExactly(r, r.approval, e.expired);
  }

  /** What execute-demo comes to once the approval is used up. */
  ghost predicate Executes(r: Release, e: Event, q: Release, answer: Answer)
    requires e.ExecuteDemo? && r.approval.Some?
  {
    var r1 := r.(approval := Some(r.approval.value.(consumed := true)));
    if r.policy.None? then answer == Blocked("RISK_POLICY_REQUIRED") && q == r1
    else if e.breach then answer == Done && Stored(q, r1.(state := BlockedRiskPolicy))
    else if r.run.None? then answer == Blocked("RUN_REQUIRED") && q == r1
    else if r.run.value !in e.runs then answer == NotFound404 && q == r1
    else match e.order
      case OrderFailed => answer == Done && Stored(q, r1.(state := BlockedExchangeError))
      case EvidenceUnreadable => answer == Blocked("EXECUTION_EVIDENCE") && q == r1
      case OrderPlaced(evidence) =>
        var u := r1.(state := ReleaseReady, executionRun := r.run, execution := Some(evidence), manifest := None);
        && answer == Done
        && if forall item :: !Lacks(u, ReleaseReady, item) then Stored(q, u) else StoredBlocked(q, u, ReleaseReady)
  }

  lemma {:induction false} ExecutePasses(r: Release, e: Event)
    requires e.ExecuteDemo? && !e.freeze && r.execution.None? && NoneFails(ExecuteChecks(r, e))
    ensures r.state == Approved && r.approval.Some?
    ensures ExecutionBlock(r, r.approval, e.expired).None?
  {
    hide Fingerprint;
    var c := ExecuteChecks(r, e);
    assert !c[6].0 && !c[7].0 && !c[8].0 && !c[9].0 && !c[10].0;
  }

  lemma {:induction false} ExecuteGoesOn(r: Release, e: Event)
    requires e.ExecuteDemo? && !e.freeze && r.execution.None? && r.state == Approved && r.approval.Some?
    requires ExecutionBlock(r, r.approval, e.expired).None?
    ensures Executes(r, e, Step(r, e).0, Step(r, e).1)
  {
    hide Transition, Fingerprint, MissingFor, Stored, StoredBlocked, Lacks, ExecutionBlock;
    var r1 := r.(approval := Some(r.approval.value.(consumed := true)));
    var risk, exchange := r1.(state := BlockedRiskPolicy), r1.(state := BlockedExchangeError);
    NothingMissing(risk);
    NothingMissing(exchange);
    Moves(r1, risk);
    Moves(r1, exchange);
    if e.order.OrderPlaced? {
      var u := Executed(r1, e.order.evidence);
      Moves(r1, u);
      MissingExactly(u, ReleaseReady);
      var items := MissingFor(u, ReleaseReady);
      if items != [] { assert items[0] in items; }
    }
  }

  /** Execute-demo: a freeze stops it, evidence that is there is the answer, the first check that fails is the reason,
      and after that the approval is used up whatever happens. */
  lemma {:induction false} ExecuteExactly(r: Release, e: Event)
    requires e.ExecuteDemo?
    ensures e.freeze ==> Step(r, e) == (r, Blocked("REDLINE_EXECUTION_FREEZE"))
    ensures !e.freeze && r.execution.Some? ==> Step(r, e) == (r, Done)
    ensures !e.freeze && r.execution.None? ==>
      && (forall k: nat :: FirstReason(ExecuteChecks(r, e), k) ==>
            Step(r, e) == (r, Blocked(ExecuteChecks(r, e)[k].1)))
      && (NoneFails(ExecuteChecks(r, e)) ==> r.approval.Some? && Executes(r, e, Step(r, e).0, Step(r, e).1))
  {
    hide Transition, Fingerprint, ExecuteChecks, Executes, ExecutionBlock, Settle;
    if !e.freeze && r.execution.None? {
      forall k: nat | FirstReason(ExecuteChecks(r, e), k) ensures Step(r, e) == (r, Blocked(ExecuteChecks(r, e)[k].1)) {
        ExecuteBlocks(r, e, k);
      }
      if NoneFails(ExecuteChecks(r, e)) {
        ExecutePasses(r, e);
        ExecuteGoesOn(r, e);
      }
    }
  }

  /** A showcase order: only on a ready release with its execution; it uses up the showcase approval when there is one,
      and the release's own otherwise. */
  lemma {:induction false} ShowcaseExactly(r: Release, freeze: bool, expired: bool)
    ensures var (q, answer) := Step(r, Showcase(freeze, expired));
      var checks := ExecutionChecks(r, if r.showcase.Some? then r.showcase else r.approval, expired);
      if freeze then answer == Blocked("REDLINE_EXECUTION_FREEZE") && q == r
      else if r.state != ReleaseReady || r.execution.None? then
        answer == Blocked("RELEASE_DEMO_EXECUTION_REQUIRED") && q == r
      else
        && (forall k: nat :: FirstReason(checks, k) ==> answer == Blocked(checks[k].1) && q == r)
        && (NoneFails(checks) && r.showcase.Some? ==>
              answer == Done && q == r.(showcase := Some(r.showcase.value.(consumed := true))))
        && (NoneFails(checks) && r.showcase.None? ==>
              r.approval.Some? && answer == Done && q == r.(approval := Some(r.approval.value.(consumed := true))))
  {
    hide Fingerprint, ExecutionBlock, ExecutionChecks, NoneFails;
    var approval := if r.showcase.Some? then r.showcase else r.approval;
    ExecutionBlockExactly(r, approval, expired);
    BlockNeedsApproval(r, approval, expired);
  }

  lemma {:induction false} BlockNeedsApproval(r: Release, approval: Option<Approval>, expired: bool)
    ensures ExecutionBlock(r, approval, expired).None? ==> approval.Some?
    ensures ExecutionBlock(r, approval, expired).Some? ==>
      exists k: nat :: FirstReason(ExecutionChecks(r, approval, expired), k)
  {
    hide Fingerprint;
    var c := ExecutionChecks(r, approval, expired);
    if ExecutionBlock(r, approval, expired).Some? {
      var k: nat := if c[0].0 then 0 else if c[1].0 then 1 else if c[2].0 then 2 else 3;
      assert FirstReason(c, k);
    }
  }
}
